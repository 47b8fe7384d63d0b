/**
 * AgglomerativePhaseExtractor: one phase per beat, then repeatedly merge the
 * adjacent pair at the least combined distance until the desired number of
 * phases remains, then number the phases 0, 1, ... in timeline order.
 */
module PhaseExtraction {
  import opened Wrappers
  import opened Kinds
  import opened Models
  import opened Phases
  import opened Distances
  import opened Profiles
  import opened Lists

  // ----- the partition of the timeline into blocks, as values -----

  function Flatten(bs: seq<seq<Beat>>): (r: seq<Beat>)
  {
    if bs == [] then [] else Flatten(bs[..|bs| - 1]) + bs[|bs| - 1]
  }

  lemma {:induction false} FlattenAppend(a: seq<seq<Beat>>, b: seq<seq<Beat>>)
    ensures Flatten(a + b) == Flatten(a) + Flatten(b)
    decreases |b|
  {
    if b == [] {
      assert a + b == a;
    } else {
      var front, last := b[..|b| - 1], b[|b| - 1];
      assert (a + b)[..|a + b| - 1] == a + front && (a + b)[|a + b| - 1] == last;
      FlattenAppend(a, front);
      calc {
        Flatten(a + b);
        Flatten(a + front) + last;
        (Flatten(a) + Flatten(front)) + last;
        Flatten(a) + (Flatten(front) + last);
        Flatten(a) + Flatten(b);
      }
    }
  }

  lemma FlattenPrefixStep(bs: seq<seq<Beat>>, k: int)
    requires 0 <= k < |bs|
    ensures Flatten(bs[..k + 1]) == Flatten(bs[..k]) + bs[k]
  {
    assert bs[..k + 1][..k] == bs[..k];
  }

  lemma {:induction false} FlattenPrefixGrows(bs: seq<seq<Beat>>, a: int, b: int)
    requires 0 <= a <= b <= |bs|
    requires forall k :: 0 <= k < |bs| ==> |bs[k]| >= 1
    ensures |Flatten(bs[..a])| + (b - a) <= |Flatten(bs[..b])| <= |Flatten(bs)|
  {
    PrefixLength(bs, a, b);
    PrefixLength(bs, b, |bs|);
    assert bs[..|bs|] == bs;
  }

  lemma {:induction false} PrefixLength(bs: seq<seq<Beat>>, a: int, b: int)
    requires 0 <= a <= b <= |bs|
    requires forall k :: 0 <= k < |bs| ==> |bs[k]| >= 1
    ensures |Flatten(bs[..a])| + (b - a) <= |Flatten(bs[..b])|
    decreases b - a
  {
    if a < b {
      FlattenPrefixStep(bs, a);
      PrefixLength(bs, a + 1, b);
    }
  }

  /** The blocks after merging block i with block i + 1. */
  function JoinAt<T>(bs: seq<seq<T>>, i: int): (r: seq<seq<T>>)
    requires 0 <= i < |bs| - 1
    ensures |r| == |bs| - 1
  {
    bs[..i] + [bs[i] + bs[i + 1]] + bs[i + 2..]
  }

  /** Block i of the result is the two joined blocks; the others are the old ones, shifted past i. */
  lemma JoinAtElements<T>(bs: seq<seq<T>>, i: int)
    requires 0 <= i < |bs| - 1
    ensures forall k :: 0 <= k < i ==> JoinAt(bs, i)[k] == bs[k]
    ensures JoinAt(bs, i)[i] == bs[i] + bs[i + 1]
    ensures forall k :: i < k < |bs| - 1 ==> JoinAt(bs, i)[k] == bs[k + 1]
  {
  }


  lemma JoinAtFlatten(bs: seq<seq<Beat>>, i: int)
    requires 0 <= i < |bs| - 1
    ensures forall k :: 0 <= k <= i ==> Flatten(JoinAt(bs, i)[..k]) == Flatten(bs[..k])
    ensures forall k :: i < k <= |bs| - 1 ==> Flatten(JoinAt(bs, i)[..k]) == Flatten(bs[..k + 1])
  {
    var j := JoinAt(bs, i);
    forall k | 0 <= k <= i ensures Flatten(j[..k]) == Flatten(bs[..k]) {
      assert j[..k] == bs[..k];
    }
    forall k | i < k <= |bs| - 1 ensures Flatten(j[..k]) == Flatten(bs[..k + 1]) {
      assert j[..k] == bs[..i] + [bs[i] + bs[i + 1]] + bs[i + 2..k + 1];
      assert bs[..k + 1] == bs[..i] + [bs[i]] + [bs[i + 1]] + bs[i + 2..k + 1];
      FlattenAppend(bs[..i] + [bs[i] + bs[i + 1]], bs[i + 2..k + 1]);
      FlattenAppend(bs[..i], [bs[i] + bs[i + 1]]);
      FlattenAppend(bs[..i] + [bs[i]] + [bs[i + 1]], bs[i + 2..k + 1]);
      FlattenAppend(bs[..i] + [bs[i]], [bs[i + 1]]);
      FlattenAppend(bs[..i], [bs[i]]);
      assert Flatten([bs[i] + bs[i + 1]]) == bs[i] + bs[i + 1] by { assert [bs[i] + bs[i + 1]][..0] == []; }
      assert Flatten([bs[i]]) == bs[i] by { assert [bs[i]][..0] == []; }
      assert Flatten([bs[i + 1]]) == bs[i + 1] by { assert [bs[i + 1]][..0] == []; }
    }
  }

  /** The blocks are non-empty and, concatenated, give the timeline back. */
  ghost predicate CoversTimeline(bs: seq<seq<Beat>>, timeline: seq<Beat>)
  {
    (forall k :: 0 <= k < |bs| ==> |bs[k]| >= 1) && Flatten(bs) == timeline
  }

  /** Each id is the timeline position of its block's first beat. */
  ghost predicate IdsAreStarts(bs: seq<seq<Beat>>, ids: seq<int>)
  {
    |bs| == |ids| && forall k :: 0 <= k < |bs| ==> ids[k] == |Flatten(bs[..k])|
  }

  /** Each block's map is the key-wise sum of the maps of its beats. */
  ghost predicate MapsAreSums(bs: seq<seq<Beat>>, ids: seq<int>, vm: map<int, map<string, real>>, beatMaps: seq<map<string, real>>)
    requires |bs| == |ids|
  {
    forall k :: 0 <= k < |ids| ==> ids[k] in vm && vm[ids[k]] == TotalRange(beatMaps, ids[k], ids[k] + |bs[k]|)
  }

  /**
   * IdsAreStarts, block by block from the left: the same statement as a
   * recursion, so that a caller holding it sees one block at a time.
   */
  ghost predicate StartsFrom(bs: seq<seq<Beat>>, ids: seq<int>)
    decreases |bs|
  {
    |bs| == |ids| && (bs == [] || (StartsFrom(bs[..|bs| - 1], ids[..|ids| - 1]) && ids[|ids| - 1] == |Flatten(bs[..|bs| - 1])|))
  }

  lemma {:induction false} StartsFromMeaning(bs: seq<seq<Beat>>, ids: seq<int>)
    ensures StartsFrom(bs, ids) <==> IdsAreStarts(bs, ids)
    decreases |bs|
  {
    if bs != [] && |bs| == |ids| {
      var n := |bs|;
      StartsFromMeaning(bs[..n - 1], ids[..n - 1]);
      assert forall k :: 0 <= k < n - 1 ==> bs[..n - 1][..k] == bs[..k];
    }
  }

  /** MapsAreSums, block by block from the left. */
  ghost predicate SumsFrom(bs: seq<seq<Beat>>, ids: seq<int>, vm: map<int, map<string, real>>, beatMaps: seq<map<string, real>>)
    requires |bs| == |ids|
    decreases |bs|
  {
    bs == [] ||
      var n := |bs|;
      && SumsFrom(bs[..n - 1], ids[..n - 1], vm, beatMaps)
      && ids[n - 1] in vm
      && vm[ids[n - 1]] == TotalRange(beatMaps, ids[n - 1], ids[n - 1] + |bs[n - 1]|)
  }

  lemma {:induction false} SumsFromMeaning(bs: seq<seq<Beat>>, ids: seq<int>, vm: map<int, map<string, real>>, beatMaps: seq<map<string, real>>)
    requires |bs| == |ids|
    ensures SumsFrom(bs, ids, vm, beatMaps) <==> MapsAreSums(bs, ids, vm, beatMaps)
    decreases |bs|
  {
    if bs != [] {
      var n := |bs|;
      SumsFromMeaning(bs[..n - 1], ids[..n - 1], vm, beatMaps);
    }
  }

  /** The key-wise sum of the beat maps at positions lo .. hi - 1 (empty outside the timeline). */
  ghost function TotalRange(beatMaps: seq<map<string, real>>, lo: int, hi: int): map<string, real>
    decreases hi - lo
  {
    if !(0 <= lo < hi <= |beatMaps|) then map[] else MergeAdd(TotalRange(beatMaps, lo, hi - 1), beatMaps[hi - 1])
  }

  /** Adjacent ranges add up. */
  lemma {:induction false} TotalRangeSplit(beatMaps: seq<map<string, real>>, lo: int, mid: int, hi: int)
    requires 0 <= lo <= mid <= hi <= |beatMaps|
    ensures TotalRange(beatMaps, lo, hi) == MergeAdd(TotalRange(beatMaps, lo, mid), TotalRange(beatMaps, mid, hi))
    decreases hi - mid
  {
    if mid == hi {
      var t := TotalRange(beatMaps, lo, mid);
      assert MergeAdd(t, map[]) == t;
    } else {
      TotalRangeSplit(beatMaps, lo, mid, hi - 1);
      MergeAddAssociative(TotalRange(beatMaps, lo, mid), TotalRange(beatMaps, mid, hi - 1), beatMaps[hi - 1]);
    }
  }

  /**
   * The extractor's state as values: the beat blocks of the phases, their
   * ids and the id -> (entity -> value) map. Each id is the timeline
   * position of its phase's first beat, and each phase's map is the key-wise
   * sum of its beats' maps.
   */
  ghost predicate Partition(bs: seq<seq<Beat>>, ids: seq<int>, vm: map<int, map<string, real>>,
                            timeline: seq<Beat>, beatMaps: seq<map<string, real>>)
  {
    && |beatMaps| == |timeline|
    && CoversTimeline(bs, timeline)
    && StartsFrom(bs, ids)
    && SumsFrom(bs, ids, vm, beatMaps)
  }

  /** The same state with the per-block facts stated for all blocks at once. */
  lemma PartitionMeaning(bs: seq<seq<Beat>>, ids: seq<int>, vm: map<int, map<string, real>>,
                         timeline: seq<Beat>, beatMaps: seq<map<string, real>>)
    ensures Partition(bs, ids, vm, timeline, beatMaps) <==>
              && |beatMaps| == |timeline|
              && CoversTimeline(bs, timeline)
              && IdsAreStarts(bs, ids)
              && MapsAreSums(bs, ids, vm, beatMaps)
  {
    StartsFromMeaning(bs, ids);
    if |bs| == |ids| {
      SumsFromMeaning(bs, ids, vm, beatMaps);
    }
  }

  /** Ids grow strictly along the list, and consecutive ids differ by the left block's length. */
  lemma StartsFacts(bs: seq<seq<Beat>>, ids: seq<int>, timeline: seq<Beat>)
    requires CoversTimeline(bs, timeline) && IdsAreStarts(bs, ids)
    ensures forall a, b :: 0 <= a < b < |ids| ==> ids[a] < ids[b]
    ensures forall k :: 0 <= k < |ids| - 1 ==> ids[k + 1] - ids[k] == |bs[k]|
    ensures forall k :: 0 <= k < |ids| ==> 0 <= ids[k] && ids[k] + |bs[k]| <= |timeline|
  {
    forall a, b | 0 <= a < b < |ids| ensures ids[a] < ids[b] {
      FlattenPrefixGrows(bs, a, b);
    }
    forall k | 0 <= k < |ids| ensures 0 <= ids[k] && ids[k] + |bs[k]| <= |timeline| {
      FlattenPrefixStep(bs, k);
      FlattenPrefixGrows(bs, k + 1, k + 1);
    }
    forall k | 0 <= k < |ids| - 1 ensures ids[k + 1] - ids[k] == |bs[k]| {
      FlattenPrefixStep(bs, k);
    }
  }

  lemma JoinCovers(bs: seq<seq<Beat>>, timeline: seq<Beat>, i: int)
    requires CoversTimeline(bs, timeline) && 0 <= i < |bs| - 1
    ensures CoversTimeline(JoinAt(bs, i), timeline)
  {
    JoinAtFlatten(bs, i);
    var j := JoinAt(bs, i);
    assert j[..|j|] == j;
    assert bs[..|bs|] == bs;
  }

  lemma JoinStarts(bs: seq<seq<Beat>>, ids: seq<int>, i: int)
    requires IdsAreStarts(bs, ids) && 0 <= i < |bs| - 1
    ensures IdsAreStarts(JoinAt(bs, i), RemoveAt(ids, i + 1))
  {
    JoinAtFlatten(bs, i);
  }

  /** The sums of two adjacent ranges add up to the sum of their union. */
  lemma JoinedSum(beatMaps: seq<map<string, real>>, left: map<string, real>, right: map<string, real>, a: int, b: int, c: int)
    requires 0 <= a <= b <= c <= |beatMaps|
    requires left == TotalRange(beatMaps, a, b) && right == TotalRange(beatMaps, b, c)
    ensures MergeAdd(left, right) == TotalRange(beatMaps, a, c)
  {
    TotalRangeSplit(beatMaps, a, b, c);
  }

  /** Adding the maps of adjacent blocks i and i + 1 gives the sum over the joined block. */
  lemma MergedEntry(bs: seq<seq<Beat>>, ids: seq<int>, vm: map<int, map<string, real>>, beatMaps: seq<map<string, real>>, i: int)
    requires |bs| == |ids| && 0 <= i < |bs| - 1
    requires MapsAreSums(bs, ids, vm, beatMaps)
    requires ids[i + 1] - ids[i] == |bs[i]|
    requires 0 <= ids[i] && ids[i + 1] + |bs[i + 1]| <= |beatMaps|
    ensures MergeAdd(vm[ids[i]], vm[ids[i + 1]]) == TotalRange(beatMaps, ids[i], ids[i] + |bs[i]| + |bs[i + 1]|)
  {
    JoinedSum(beatMaps, vm[ids[i]], vm[ids[i + 1]], ids[i], ids[i + 1], ids[i + 1] + |bs[i + 1]|);
  }

  /** The id -> map table after a merge still holds each phase's sum, given the joined block's sum. */
  lemma JoinSums(bs: seq<seq<Beat>>, ids: seq<int>, vm: map<int, map<string, real>>, beatMaps: seq<map<string, real>>,
                 i: int, merged: map<string, real>)
    requires |bs| == |ids| && 0 <= i < |bs| - 1
    requires MapsAreSums(bs, ids, vm, beatMaps)
    requires forall a, b :: 0 <= a < b < |ids| ==> ids[a] < ids[b]
    requires merged == TotalRange(beatMaps, ids[i], ids[i] + |bs[i]| + |bs[i + 1]|)
    ensures MapsAreSums(JoinAt(bs, i), RemoveAt(ids, i + 1), vm[ids[i] := merged] - {ids[i + 1]}, beatMaps)
  {
    forall k | 0 <= k < |bs| - 1
      ensures var bs', ids', vm' := JoinAt(bs, i), RemoveAt(ids, i + 1), vm[ids[i] := merged] - {ids[i + 1]};
        ids'[k] in vm' && vm'[ids'[k]] == TotalRange(beatMaps, ids'[k], ids'[k] + |bs'[k]|)
    {
      JoinSumsAt(bs, ids, vm, beatMaps, i, merged, k);
    }
  }

  /** Entry k of the table after the merge. */
  lemma JoinSumsAt(bs: seq<seq<Beat>>, ids: seq<int>, vm: map<int, map<string, real>>, beatMaps: seq<map<string, real>>,
                   i: int, merged: map<string, real>, k: int)
    requires |bs| == |ids| && 0 <= i < |bs| - 1 && 0 <= k < |bs| - 1
    requires MapsAreSums(bs, ids, vm, beatMaps)
    requires forall a, b :: 0 <= a < b < |ids| ==> ids[a] < ids[b]
    requires merged == TotalRange(beatMaps, ids[i], ids[i] + |bs[i]| + |bs[i + 1]|)
    ensures var bs', ids', vm' := JoinAt(bs, i), RemoveAt(ids, i + 1), vm[ids[i] := merged] - {ids[i + 1]};
      ids'[k] in vm' && vm'[ids'[k]] == TotalRange(beatMaps, ids'[k], ids'[k] + |bs'[k]|)
  {
    JoinAtElements(bs, i);
    if k != i {
      var j := if k < i then k else k + 1;
      assert RemoveAt(ids, i + 1)[k] == ids[j] && JoinAt(bs, i)[k] == bs[j];
      assert ids[j] != ids[i] && ids[j] != ids[i + 1];
    }
  }

  /** mergePhases keeps the partition: the joined block's map is the sum of the two maps. */
  lemma MergeKeepsPartition(bs: seq<seq<Beat>>, ids: seq<int>, vm: map<int, map<string, real>>,
                            timeline: seq<Beat>, beatMaps: seq<map<string, real>>, i: int)
    requires Partition(bs, ids, vm, timeline, beatMaps)
    requires 0 <= i < |bs| - 1 && ids[i] in vm && ids[i + 1] in vm
    ensures Partition(JoinAt(bs, i), RemoveAt(ids, i + 1),
                      vm[ids[i] := MergeAdd(vm[ids[i]], vm[ids[i + 1]])] - {ids[i + 1]}, timeline, beatMaps)
  {
    PartitionMeaning(bs, ids, vm, timeline, beatMaps);
    StartsFacts(bs, ids, timeline);
    JoinCovers(bs, timeline, i);
    JoinStarts(bs, ids, i);
    MergedEntry(bs, ids, vm, beatMaps, i);
    JoinSums(bs, ids, vm, beatMaps, i, MergeAdd(vm[ids[i]], vm[ids[i + 1]]));
    PartitionMeaning(JoinAt(bs, i), RemoveAt(ids, i + 1), vm[ids[i] := MergeAdd(vm[ids[i]], vm[ids[i + 1]])] - {ids[i + 1]}, timeline, beatMaps);
  }

  /**
   * The combined distance of two adjacent phases: the weighted root of the
   * squared changes distance of their maps plus the weighted difference of
   * their ids.
   */
  ghost function PairDistance(profile: BeatClusteringProfile, root: real -> real, ma: map<string, real>, mb: map<string, real>, a: int, b: int): real
  {
    CombinedDistance(profile, root, ChangeDistanceSq(ma, mb), (b - a) as real)
  }

  /** The profile's weighting of the two distances. */
  function CombinedDistance(profile: BeatClusteringProfile, root: real -> real, changeSq: real, time: real): real
  {
    profile.changesWeight * root(changeSq) + profile.TimeWeight() * time
  }

  ghost function PairDistancesOf(ids: seq<int>, vm: map<int, map<string, real>>, profile: BeatClusteringProfile, root: real -> real): (r: seq<real>)
    requires forall k :: 0 <= k < |ids| ==> ids[k] in vm
    ensures |r| == if |ids| == 0 then 0 else |ids| - 1
  {
    if |ids| <= 1 then []
    else
      var n := |ids|;
      PairDistancesOf(ids[..n - 1], vm, profile, root) + [PairDistance(profile, root, vm[ids[n - 2]], vm[ids[n - 1]], ids[n - 2], ids[n - 1])]
  }

  /** Entry i of the distance list is the distance of the pair (i, i + 1). */
  lemma {:induction false} PairDistancesAt(ids: seq<int>, vm: map<int, map<string, real>>, profile: BeatClusteringProfile, root: real -> real, i: int)
    requires forall k :: 0 <= k < |ids| ==> ids[k] in vm
    requires 0 <= i < |ids| - 1
    ensures PairDistancesOf(ids, vm, profile, root)[i] == PairDistance(profile, root, vm[ids[i]], vm[ids[i + 1]], ids[i], ids[i + 1])
    decreases |ids|
  {
    var n := |ids|;
    var front := ids[..n - 1];
    assert PairDistancesOf(ids, vm, profile, root)
           == PairDistancesOf(front, vm, profile, root) + [PairDistance(profile, root, vm[ids[n - 2]], vm[ids[n - 1]], ids[n - 2], ids[n - 1])];
    if i < n - 2 {
      assert front[i] == ids[i] && front[i + 1] == ids[i + 1];
      PairDistancesAt(front, vm, profile, root, i);
    }
  }

  /** The first index at which the least value occurs. */
  function FirstArgMin(ds: seq<real>): (r: nat)
    requires |ds| >= 1
    ensures r < |ds|
  {
    if |ds| == 1 then 0
    else
      var m := FirstArgMin(ds[..|ds| - 1]);
      if ds[m] > ds[|ds| - 1] then |ds| - 1 else m
  }

  /** FirstArgMin picks a least value, and every earlier value is strictly larger. */
  lemma {:induction false} FirstArgMinMeaning(ds: seq<real>)
    requires |ds| >= 1
    ensures forall j :: 0 <= j < |ds| ==> ds[FirstArgMin(ds)] <= ds[j]
    ensures forall j :: 0 <= j < FirstArgMin(ds) ==> ds[j] > ds[FirstArgMin(ds)]
    decreases |ds|
  {
    if |ds| > 1 {
      var front := ds[..|ds| - 1];
      FirstArgMinMeaning(front);
      assert forall j :: 0 <= j < |ds| - 1 ==> front[j] == ds[j];
    }
  }

  /** The beat's entity -> value map: each entity's value for the selected key at that beat. */
  function BeatValueMap(beatIndex: map<int, map<string, TimeEntityMeasurements>>, b: Beat, key: MeasurementKey): map<string, real>
  {
    if b.beatId in beatIndex then
      var tems := beatIndex[b.beatId];
      map name | name in tems :: tems[name].ValueOfKey(key)
    else map[]
  }

  /** The key the single-profile constructor selects: RAW values, summed over all changes for schema histories. */
  function DefaultKey(fileType: FileType): (k: MeasurementKey)
    ensures k.measurementType == RAW_VALUE
    ensures k.aggregationType == (if fileType == SCHEMA_EVO then SUM_OF_ALL else NO_AGGREGATION)
  {
    MeasurementKey(RAW_VALUE, if fileType == SCHEMA_EVO then SUM_OF_ALL else NO_AGGREGATION)
  }

  class AgglomerativePhaseExtractor {
    const profile: BeatClusteringProfile
    const key: MeasurementKey
    /** The data handler's timeline and its beat id -> entity name -> TEM index. */
    const timeline: seq<Beat>
    const beatIndex: map<int, map<string, TimeEntityMeasurements>>
    /** Math.sqrt. */
    const root: real -> real

    var phaseList: seq<Phase>
    var valueMap: map<int, map<string, real>>
    /** The beats and the id of each phase of phaseList, as values. */
    ghost var blocks: seq<seq<Beat>>
    ghost var ids: seq<int>

    /** Each timeline beat's entity -> value map for the selected key. */
    ghost const beatMaps: seq<map<string, real>>

    /** Each phase of the list is well formed and holds blocks[k] under id ids[k]. */
    ghost predicate Linked()
      reads this, phaseList
    {
      && |blocks| == |phaseList| && |ids| == |phaseList|
      && forall k :: 0 <= k < |phaseList| ==>
           phaseList[k].Valid() && phaseList[k].components == blocks[k] && phaseList[k].phaseId == ids[k]
    }

    /** The list's ids, in order, are ids. */
    ghost predicate IdsLinked()
      reads this, phaseList
    {
      |ids| == |phaseList| && forall k :: 0 <= k < |phaseList| ==> phaseList[k].phaseId == ids[k]
    }

    /** Every phase id has a value map. */
    ghost predicate Keyed()
      reads this
    {
      forall k :: 0 <= k < |ids| ==> ids[k] in valueMap
    }

    ghost predicate Valid()
      reads this, phaseList
    {
      && Distinct(phaseList)
      && Linked()
      && Partition(blocks, ids, valueMap, timeline, beatMaps)
      && Keyed()
    }

    constructor (p: BeatClusteringProfile, fileType: FileType, tl: seq<Beat>,
                 index: map<int, map<string, TimeEntityMeasurements>>, sqrt: real -> real)
      ensures profile == p && key == DefaultKey(fileType)
      ensures timeline == tl && beatIndex == index && root == sqrt
      ensures phaseList == [] && valueMap == map[]
      ensures beatMaps == BeatMapsOf(beatIndex, timeline, key)
    {
      profile := p;
      key := DefaultKey(fileType);
      timeline := tl;
      beatIndex := index;
      root := sqrt;
      beatMaps := BeatMapsOf(index, tl, DefaultKey(fileType));
      phaseList := [];
      valueMap := map[];
      blocks := [];
      ids := [];
    }

    constructor WithKinds(mt: MeasurementType, at: AggregationType, p: BeatClusteringProfile, tl: seq<Beat>,
                          index: map<int, map<string, TimeEntityMeasurements>>, sqrt: real -> real)
      ensures profile == p && key == MeasurementKey(mt, at)
      ensures timeline == tl && beatIndex == index && root == sqrt
      ensures phaseList == [] && valueMap == map[]
      ensures beatMaps == BeatMapsOf(beatIndex, timeline, key)
    {
      profile := p;
      key := MeasurementKey(mt, at);
      timeline := tl;
      beatIndex := index;
      root := sqrt;
      beatMaps := BeatMapsOf(index, tl, MeasurementKey(mt, at));
      phaseList := [];
      valueMap := map[];
      blocks := [];
      ids := [];
    }

    /** The combined distances of the adjacent pairs in the current state. */
    ghost function PairDistances(): (r: seq<real>)
      requires Keyed() && |ids| >= 2
      reads this
      ensures |r| == |ids| - 1
    {
      PairDistancesOf(ids, valueMap, profile, root)
    }

    /** init: one phase per beat, with id = timeline position and that beat's value map. */
    method Init()
      requires beatMaps == BeatMapsOf(beatIndex, timeline, key)
      modifies this
      ensures Valid()
      ensures |phaseList| == |timeline|
      ensures forall k :: 0 <= k < |phaseList| ==> blocks[k] == [timeline[k]] && ids[k] == k
      ensures forall k :: 0 <= k < |phaseList| ==> fresh(phaseList[k])
    {
      phaseList := [];
      valueMap := map[];
      blocks := [];
      ids := [];
      var j := 0;
      while j < |timeline|
        invariant 0 <= j <= |timeline| && |phaseList| == j && |blocks| == j && |ids| == j
        invariant forall k :: 0 <= k < j ==> fresh(phaseList[k]) && phaseList[k].Valid()
        invariant forall k :: 0 <= k < j ==> phaseList[k].components == [timeline[k]] && phaseList[k].phaseId == k
        invariant forall k :: 0 <= k < j ==> blocks[k] == [timeline[k]] && ids[k] == k
        invariant forall k :: 0 <= k < j ==> k in valueMap && valueMap[k] == beatMaps[k]
      {
        AddSingletonPhase(j);
        j := j + 1;
      }
      InitialValid();
    }

    /** One round of the init loop: a fresh phase holding beat j alone, with beat j's value map. */
    method AddSingletonPhase(j: nat)
      requires beatMaps == BeatMapsOf(beatIndex, timeline, key) && j < |timeline|
      modifies this
      ensures |phaseList| == |old(phaseList)| + 1 && phaseList[..|old(phaseList)|] == old(phaseList)
      ensures var phase := phaseList[|old(phaseList)|];
        fresh(phase) && phase.Valid() && phase.components == [timeline[j]] && phase.phaseId == j
      ensures blocks == old(blocks) + [[timeline[j]]] && ids == old(ids) + [j]
      ensures valueMap == old(valueMap)[j := beatMaps[j]]
    {
      var phase := new Phase(j, timeline[j]);
      phaseList := phaseList + [phase];
      blocks := blocks + [[timeline[j]]];
      ids := ids + [j];
      var beatMap := EntityValuesAt(timeline[j]);
      BeatMapsOfAt(beatIndex, timeline, key, j);
      valueMap := valueMap[j := beatMap];
    }

    /** The inner loop of init: each entity's value for the selected key at beat b (none when b has no TEMs). */
    method EntityValuesAt(b: Beat) returns (m: map<string, real>)
      ensures m == BeatValueMap(beatIndex, b, key)
    {
      m := map[];
      if b.beatId in beatIndex {
        var tems := beatIndex[b.beatId];
        var names := tems.Keys;
        while names != {}
          invariant names <= tems.Keys
          invariant m == map name | name in tems.Keys - names :: tems[name].ValueOfKey(key)
          decreases |names|
        {
          var name :| name in names;
          m := m[name := tems[name].ValueOfKey(key)];
          names := names - {name};
        }
      }
    }

    /** The state the init loop leaves is valid: ids tell the phases apart, and the blocks are singletons. */
    lemma InitialValid()
      requires |phaseList| == |timeline| && |blocks| == |timeline| && |ids| == |timeline|
      requires forall k :: 0 <= k < |phaseList| ==> phaseList[k].Valid()
      requires forall k :: 0 <= k < |phaseList| ==> phaseList[k].components == [timeline[k]] && phaseList[k].phaseId == k
      requires forall k :: 0 <= k < |phaseList| ==> blocks[k] == [timeline[k]] && ids[k] == k
      requires |beatMaps| == |timeline|
      requires forall k :: 0 <= k < |phaseList| ==> k in valueMap && valueMap[k] == beatMaps[k]
      ensures Valid()
    {
      assert Distinct(phaseList) by {
        forall a, b | 0 <= a < b < |phaseList| ensures phaseList[a] != phaseList[b] {
          assert phaseList[a].phaseId != phaseList[b].phaseId;
        }
      }
      SingletonPartition(blocks, ids, valueMap, timeline, beatMaps);
    }

    /**
     * mergePhases: phase i absorbs phase i + 1's beats and keeps its id; the
     * absorbed phase's map is added into phase i's and removed, and the
     * absorbed phase leaves the list.
     */
    method MergePhases(i: int)
      requires Valid() && 0 <= i < |phaseList| - 1
      modifies this, phaseList[i]
      ensures Valid()
      ensures phaseList == RemoveAt(old(phaseList), i + 1)
      ensures blocks == JoinAt(old(blocks), i)
      ensures ids == RemoveAt(old(ids), i + 1)
      ensures valueMap == old(valueMap[ids[i] := MergeAdd(valueMap[ids[i]], valueMap[ids[i + 1]])] - {ids[i + 1]})
    {
      ghost var ps, bs, starts, vm := phaseList, blocks, ids, valueMap;
      var current := phaseList[i];
      var next := phaseList[i + 1];
      current.MergeWithPhase(next);
      var merged := MergeInto(valueMap[current.phaseId], valueMap[next.phaseId]);
      valueMap := valueMap[current.phaseId := merged] - {next.phaseId};
      phaseList := RemoveAt(phaseList, i + 1);
      JoinAtElements(blocks, i);
      blocks := JoinAt(blocks, i);
      ids := RemoveAt(ids, i + 1);
      forall k | 0 <= k < |phaseList|
        ensures phaseList[k].Valid() && phaseList[k].components == blocks[k] && phaseList[k].phaseId == ids[k]
      {
        if k < i {
          assert phaseList[k] == ps[k] && ps[k] != current;
        } else if k > i {
          assert phaseList[k] == ps[k + 1] && ps[k + 1] != current;
        }
      }
      MergedValid(ps, bs, starts, vm, i);
    }

    /** The state mergePhases leaves starts valid again. */
    lemma MergedValid(ps: seq<Phase>, bs: seq<seq<Beat>>, starts: seq<int>, vm: map<int, map<string, real>>, i: int)
      requires Distinct(ps) && 0 <= i < |ps| - 1
      requires Partition(bs, starts, vm, timeline, beatMaps) && |starts| == |ps|
      requires forall k :: 0 <= k < |starts| ==> starts[k] in vm
      requires phaseList == RemoveAt(ps, i + 1) && blocks == JoinAt(bs, i) && ids == RemoveAt(starts, i + 1)
      requires valueMap == vm[starts[i] := MergeAdd(vm[starts[i]], vm[starts[i + 1]])] - {starts[i + 1]}
      requires Linked()
      ensures Valid()
    {
      DistinctRemoveAt(ps, i + 1);
      MergeKeepsPartition(bs, starts, vm, timeline, beatMaps, i);
      PartitionMeaning(blocks, ids, valueMap, timeline, beatMaps);
    }

    /**
     * clusterData: with a desired count K >= 1, exactly min(T, K) phases
     * remain; they cut the timeline into consecutive runs, in order, and are
     * numbered 0, 1, ... in list order.
     */
    method ClusterData() returns (phases: seq<Phase>)
      requires profile.desiredNumberOfPhases >= 1
      requires beatMaps == BeatMapsOf(beatIndex, timeline, key)
      modifies this
      ensures phases == phaseList && Distinct(phases) && Linked()
      ensures |phases| == if |timeline| <= profile.desiredNumberOfPhases then |timeline| else profile.desiredNumberOfPhases
      ensures Flatten(blocks) == timeline
      ensures forall k :: 0 <= k < |phases| ==> phases[k].phaseId == k
    {
      Init();
      MergeAndRenumber();
      phases := phaseList;
    }

    /** The merge rounds of clusterData, then the renumbering of the phases that remain. */
    method MergeAndRenumber()
      requires Valid() && profile.desiredNumberOfPhases >= 1 && |phaseList| == |timeline|
      modifies this, phaseList
      ensures Distinct(phaseList) && Linked()
      ensures |phaseList| == if |timeline| <= profile.desiredNumberOfPhases then |timeline| else profile.desiredNumberOfPhases
      ensures Flatten(blocks) == timeline
      ensures forall k :: 0 <= k < |phaseList| ==> phaseList[k].phaseId == k
    {
      MergeRounds();
      Renumber();
    }

    /** The clusterData loop: merge the closest pair while more than K phases remain. */
    method MergeRounds()
      requires Valid() && profile.desiredNumberOfPhases >= 1 && |phaseList| == |timeline|
      modifies this, phaseList
      ensures Valid()
      ensures |phaseList| == if |timeline| <= profile.desiredNumberOfPhases then |timeline| else profile.desiredNumberOfPhases
      ensures forall k :: 0 <= k < |phaseList| ==> phaseList[k] in old(phaseList)
    {
      while |phaseList| > profile.desiredNumberOfPhases
        invariant Valid()
        invariant |phaseList| <= |timeline|
        invariant |phaseList| >= if |timeline| <= profile.desiredNumberOfPhases then |timeline| else profile.desiredNumberOfPhases
        invariant forall k :: 0 <= k < |phaseList| ==> phaseList[k] in old(phaseList)
        decreases |phaseList|
      {
        var minIndex := MergeClosestPair();
      }
    }

    /** One round of clusterData: the closest adjacent pair is merged. */
    method MergeClosestPair() returns (minIndex: int)
      requires Valid() && |phaseList| >= 2
      modifies this, phaseList
      ensures Valid()
      ensures minIndex == FirstArgMin(old(PairDistances()))
      ensures phaseList == RemoveAt(old(phaseList), minIndex + 1)
      ensures blocks == JoinAt(old(blocks), minIndex) && ids == RemoveAt(old(ids), minIndex + 1)
      ensures forall k :: 0 <= k < |phaseList| ==> phaseList[k] in old(phaseList)
    {
      minIndex := ClosestPair();
      MergePhases(minIndex);
    }

    /**
     * The scan of one clusterData round: only adjacent pairs are compared,
     * and the strict test keeps the lowest index attaining the minimum. The
     * time distance of a pair is the left phase's beat count.
     */
    method ClosestPair() returns (minIndex: int)
      requires IdsLinked() && Keyed() && |phaseList| >= 2
      ensures 0 <= minIndex < |phaseList| - 1
      ensures minIndex == FirstArgMin(PairDistances())
    {
      ghost var ds := PairDistances();
      var minDistance: Option<real> := None;
      minIndex := 0;
      var i := 0;
      while i < |phaseList| - 1
        invariant 0 <= i <= |phaseList| - 1
        invariant i == 0 ==> minDistance == None && minIndex == 0
        invariant i > 0 ==> minIndex == FirstArgMin(ds[..i]) && minDistance == Some(ds[minIndex])
      {
        var distance := PairDistanceAt(i);
        if minDistance.None? || minDistance.value > distance {
          minDistance := Some(distance);
          minIndex := i;
        }
        assert ds[..i + 1][..i] == ds[..i];
        i := i + 1;
      }
      assert ds[..i] == ds;
    }

    /** calculateDistance for the pair (i, i + 1): the weighted root of the changes distance plus the weighted time distance. */
    method PairDistanceAt(i: int) returns (distance: real)
      requires IdsLinked() && Keyed() && 0 <= i < |phaseList| - 1
      ensures distance == PairDistances()[i]
    {
      var current, next := phaseList[i], phaseList[i + 1];
      assert current.phaseId == ids[i] && next.phaseId == ids[i + 1];
      var currentMap := valueMap[current.phaseId];
      var nextMap := valueMap[next.phaseId];
      var changeDistance := SquaredChangeDistance(currentMap, nextMap);
      var timeDistance := CalculateTimeDistance(current, next);
      distance := CombinedDistance(profile, root, changeDistance, timeDistance);
      assert distance == PairDistance(profile, root, valueMap[ids[i]], valueMap[ids[i + 1]], ids[i], ids[i + 1]);
      PairDistancesAt(ids, valueMap, profile, root, i);
    }

    /** calculateTimeDistance: the difference of the two ids. */
    function CalculateTimeDistance(current: Phase, next: Phase): real
      reads current, next
    {
      (next.phaseId - current.phaseId) as real
    }

    /** The time distance of adjacent phases is the left phase's number of beats. */
    lemma TimeDistanceIsLength(i: int)
      requires Valid() && 0 <= i < |phaseList| - 1
      ensures CalculateTimeDistance(phaseList[i], phaseList[i + 1]) == |phaseList[i].components| as real
    {
      PartitionMeaning(blocks, ids, valueMap, timeline, beatMaps);
      StartsFacts(blocks, ids, timeline);
    }

    /** The renaming loop: the k-th phase gets id k; the beats stay where they are. */
    method Renumber()
      requires Distinct(phaseList) && Linked()
      modifies this, phaseList
      ensures phaseList == old(phaseList) && blocks == old(blocks) && Linked()
      ensures forall k :: 0 <= k < |phaseList| ==> ids[k] == k
      ensures Distinct(phaseList)
    {
      var k := 0;
      while k < |phaseList|
        invariant 0 <= k <= |phaseList|
        invariant phaseList == old(phaseList) && blocks == old(blocks)
        invariant Linked() && Distinct(phaseList)
        invariant forall j :: 0 <= j < k ==> ids[j] == j
      {
        phaseList[k].SetPhaseId(k);
        ids := ids[k := k];
        k := k + 1;
      }
    }
  }

  /** The beat value maps of the whole timeline, in timeline order. */
  function BeatMapsOf(beatIndex: map<int, map<string, TimeEntityMeasurements>>, timeline: seq<Beat>, key: MeasurementKey): (r: seq<map<string, real>>)
    ensures |r| == |timeline|
  {
    if timeline == [] then []
    else BeatMapsOf(beatIndex, timeline[..|timeline| - 1], key) + [BeatValueMap(beatIndex, timeline[|timeline| - 1], key)]
  }

  lemma {:induction false} BeatMapsOfAt(beatIndex: map<int, map<string, TimeEntityMeasurements>>, timeline: seq<Beat>, key: MeasurementKey, j: int)
    requires 0 <= j < |timeline|
    ensures BeatMapsOf(beatIndex, timeline, key)[j] == BeatValueMap(beatIndex, timeline[j], key)
    decreases |timeline|
  {
    if j < |timeline| - 1 {
      BeatMapsOfAt(beatIndex, timeline[..|timeline| - 1], key, j);
    }
  }

  /** The state init leaves: one block per beat, ids 0, 1, ..., each map that beat's. */
  lemma SingletonPartition(bs: seq<seq<Beat>>, ids: seq<int>, vm: map<int, map<string, real>>,
                           timeline: seq<Beat>, beatMaps: seq<map<string, real>>)
    requires |bs| == |ids| == |timeline| == |beatMaps|
    requires forall k :: 0 <= k < |bs| ==> bs[k] == [timeline[k]] && ids[k] == k
    requires forall k :: 0 <= k < |bs| ==> k in vm && vm[k] == beatMaps[k]
    ensures Partition(bs, ids, vm, timeline, beatMaps)
  {
    SingletonBlocks(bs, timeline);
    SingletonSums(bs, ids, vm, beatMaps);
    PartitionMeaning(bs, ids, vm, timeline, beatMaps);
  }

  lemma SingletonSums(bs: seq<seq<Beat>>, ids: seq<int>, vm: map<int, map<string, real>>, beatMaps: seq<map<string, real>>)
    requires |bs| == |ids| == |beatMaps|
    requires forall k :: 0 <= k < |bs| ==> |bs[k]| == 1 && ids[k] == k
    requires forall k :: 0 <= k < |bs| ==> k in vm && vm[k] == beatMaps[k]
    ensures MapsAreSums(bs, ids, vm, beatMaps)
  {
    forall k | 0 <= k < |bs| ensures TotalRange(beatMaps, k, k + 1) == beatMaps[k] {
      assert TotalRange(beatMaps, k, k) == map[];
      MergeAddEmptyLeft(beatMaps[k]);
    }
  }

  lemma SingletonBlocks(bs: seq<seq<Beat>>, timeline: seq<Beat>)
    requires |bs| == |timeline|
    requires forall k :: 0 <= k < |bs| ==> bs[k] == [timeline[k]]
    ensures Flatten(bs) == timeline
    ensures forall k :: 0 <= k <= |bs| ==> |Flatten(bs[..k])| == k
  {
    forall k | 0 <= k <= |bs| ensures Flatten(bs[..k]) == timeline[..k] {
      SingletonPrefix(bs, timeline, k);
    }
    assert bs[..|bs|] == bs && timeline[..|bs|] == timeline;
  }

  lemma {:induction false} SingletonPrefix(bs: seq<seq<Beat>>, timeline: seq<Beat>, k: int)
    requires |bs| == |timeline| && 0 <= k <= |bs|
    requires forall j :: 0 <= j < |bs| ==> bs[j] == [timeline[j]]
    ensures Flatten(bs[..k]) == timeline[..k]
  {
    if k > 0 {
      SingletonPrefix(bs, timeline, k - 1);
      FlattenPrefixStep(bs, k - 1);
      assert timeline[..k] == timeline[..k - 1] + [timeline[k - 1]];
    }
  }
}
