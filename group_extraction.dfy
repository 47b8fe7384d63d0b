/**
 * EntityGroupExtractor: one group per entity, then repeatedly merge the pair
 * of groups at the least weighted distance (any two groups, not only
 * neighbours) until the desired number of groups remains, then number the
 * groups 0, 1, ... in list order.
 */
module GroupExtraction {
  import opened Wrappers
  import opened Kinds
  import opened Models
  import opened Groups
  import opened Distances
  import opened Profiles
  import opened Lists

  // ----- the three distances -----

  function Abs(x: int): (r: nat)
    ensures r == x || r == -x
  {
    if x < 0 then -x else x
  }

  /** calculateBirthDistance: the gap between two beat ids as a fraction of the timeline length. */
  function BirthDistance(a: int, b: int, timelineSize: int): real
    requires timelineSize >= 1
  {
    Abs(a - b) as real / timelineSize as real
  }

  /** An open death (-1) counts as the end of the timeline. */
  function ClosedDeath(d: int, timelineSize: int): (r: int)
    ensures d != -1 ==> r == d
    ensures d == -1 ==> r == timelineSize
  {
    if d == -1 then timelineSize else d
  }

  /** calculateDeathDistance: the birth distance of the two deaths, open deaths closed at the timeline's end. */
  function DeathDistance(a: int, b: int, timelineSize: int): real
    requires timelineSize >= 1
  {
    BirthDistance(ClosedDeath(a, timelineSize), ClosedDeath(b, timelineSize), timelineSize)
  }

  /** The birth distance is symmetric, never negative, and 0 exactly for equal ids. */
  lemma BirthDistanceMetric(a: int, b: int, timelineSize: int)
    requires timelineSize >= 1
    ensures BirthDistance(a, b, timelineSize) == BirthDistance(b, a, timelineSize) >= 0.0
    ensures BirthDistance(a, b, timelineSize) == 0.0 <==> a == b
  {
    var l := timelineSize as real;
    assert Abs(a - b) == Abs(b - a);
    if a != b {
      assert Abs(a - b) as real > 0.0;
      assert Abs(a - b) as real / l > 0.0;
    }
  }

  /** The death distance is the birth distance of the closed deaths: symmetric, never negative, 0 exactly for equal closed deaths. */
  lemma DeathDistanceMetric(a: int, b: int, timelineSize: int)
    requires timelineSize >= 1
    ensures DeathDistance(a, b, timelineSize) == DeathDistance(b, a, timelineSize) >= 0.0
    ensures DeathDistance(a, b, timelineSize) == 0.0 <==> ClosedDeath(a, timelineSize) == ClosedDeath(b, timelineSize)
  {
    BirthDistanceMetric(ClosedDeath(a, timelineSize), ClosedDeath(b, timelineSize), timelineSize);
  }

  /** A part of a positive whole is at most the whole's fraction 1. */
  lemma FractionAtMostOne(x: real, l: real)
    requires 0.0 <= x <= l && l > 0.0
    ensures x / l <= 1.0
  {
    var q := x / l;
    assert q * l == x;
    assert (1.0 - q) * l == l - x >= 0.0;
  }

  /** Within the timeline the birth distance is at most 1, and an open death is as far as a death at the end. */
  lemma BeatDistanceBounds(a: int, b: int, timelineSize: int)
    requires timelineSize >= 1 && 0 <= a <= timelineSize && 0 <= b <= timelineSize
    ensures BirthDistance(a, b, timelineSize) <= 1.0
    ensures DeathDistance(-1, b, timelineSize) == DeathDistance(timelineSize, b, timelineSize)
  {
    FractionAtMostOne(Abs(a - b) as real, timelineSize as real);
  }

  /** The weighted sum the extractor minimises: weighted birth and death distances plus the weighted root of the changes distance. */
  function WeightedDistance(profile: EntityClusteringProfile, root: real -> real, birth: real, death: real, changeSq: real): real
  {
    profile.birthWeight * birth + profile.deathWeight * death + profile.changesWeight * root(changeSq)
  }

  // ----- the groups' value maps -----

  /** An entity's beat id -> value map for the selected key (empty when the entity has no TEMs). */
  function EntityValueMap(temIndex: map<string, map<int, TimeEntityMeasurements>>, name: string, key: MeasurementKey): map<int, real>
  {
    if name in temIndex then
      var tems := temIndex[name];
      map beatId | beatId in tems :: tems[beatId].ValueOfKey(key)
    else map[]
  }

  /** The members' value maps, in member order. */
  function MapsOf(members: seq<Entity>, temIndex: map<string, map<int, TimeEntityMeasurements>>, key: MeasurementKey): (r: seq<map<int, real>>)
    ensures |r| == |members|
  {
    seq(|members|, k requires 0 <= k < |members| => EntityValueMap(temIndex, members[k].entityName, key))
  }

  /** The value map a group of these members carries: the key-wise sum of the members' maps. */
  ghost function GroupSum(members: seq<Entity>, temIndex: map<string, map<int, TimeEntityMeasurements>>, key: MeasurementKey): map<int, real>
  {
    Total(MapsOf(members, temIndex, key))
  }

  /** Appending members adds their maps to the group's sum. */
  lemma GroupSumAppend(a: seq<Entity>, b: seq<Entity>, temIndex: map<string, map<int, TimeEntityMeasurements>>, key: MeasurementKey)
    ensures GroupSum(a + b, temIndex, key) == MergeAdd(GroupSum(a, temIndex, key), GroupSum(b, temIndex, key))
  {
    assert MapsOf(a + b, temIndex, key) == MapsOf(a, temIndex, key) + MapsOf(b, temIndex, key);
    TotalAppend(MapsOf(a, temIndex, key), MapsOf(b, temIndex, key));
  }

  /** A singleton group's sum is its entity's map. */
  lemma GroupSumSingle(e: Entity, temIndex: map<string, map<int, TimeEntityMeasurements>>, key: MeasurementKey)
    ensures GroupSum([e], temIndex, key) == EntityValueMap(temIndex, e.entityName, key)
  {
    assert MapsOf([e], temIndex, key) == [EntityValueMap(temIndex, e.entityName, key)];
    TotalSingle(EntityValueMap(temIndex, e.entityName, key));
  }

  // ----- the partition of the population into groups, as values -----

  /** Every member of every group, counted with multiplicity. */
  ghost function AllMembers(gs: seq<seq<Entity>>): multiset<Entity>
  {
    if gs == [] then multiset{} else AllMembers(gs[..|gs| - 1]) + multiset(gs[|gs| - 1])
  }

  lemma {:induction false} AllMembersUpdate(gs: seq<seq<Entity>>, k: int, x: seq<Entity>)
    requires 0 <= k < |gs|
    ensures AllMembers(gs[k := x]) + multiset(gs[k]) == AllMembers(gs) + multiset(x)
    decreases |gs|
  {
    var n := |gs|;
    var g := gs[k := x];
    if k < n - 1 {
      var front := gs[..n - 1];
      assert g[..n - 1] == front[k := x] && g[n - 1] == gs[n - 1] && front[k] == gs[k];
      AllMembersUpdate(front, k, x);
      var p, f, t := AllMembers(front[k := x]), AllMembers(front), multiset(gs[n - 1]);
      assert AllMembers(g) == p + t && AllMembers(gs) == f + t;
      forall e ensures (p + t + multiset(gs[k]))[e] == (f + t + multiset(x))[e] {
        assert (p + multiset(gs[k]))[e] == (f + multiset(x))[e];
      }
    } else {
      assert g[..n - 1] == gs[..n - 1] && g[n - 1] == x;
      assert AllMembers(g) == AllMembers(gs[..n - 1]) + multiset(x);
      assert AllMembers(gs) == AllMembers(gs[..n - 1]) + multiset(gs[k]);
    }
  }

  lemma {:induction false} AllMembersRemove(gs: seq<seq<Entity>>, k: int)
    requires 0 <= k < |gs|
    ensures AllMembers(RemoveAt(gs, k)) + multiset(gs[k]) == AllMembers(gs)
    decreases |gs|
  {
    var n := |gs|;
    if k < n - 1 {
      var r := RemoveAt(gs, k);
      assert r[..n - 2] == RemoveAt(gs[..n - 1], k) && r[n - 2] == gs[n - 1];
      AllMembersRemove(gs[..n - 1], k);
      calc {
        AllMembers(r) + multiset(gs[k]);
        AllMembers(RemoveAt(gs[..n - 1], k)) + multiset(gs[n - 1]) + multiset(gs[k]);
        (AllMembers(RemoveAt(gs[..n - 1], k)) + multiset(gs[k])) + multiset(gs[n - 1]);
        AllMembers(gs[..n - 1]) + multiset(gs[n - 1]);
      }
    } else {
      assert RemoveAt(gs, k) == gs[..n - 1];
    }
  }

  /** Group a absorbing group b and b's entry leaving the list loses and duplicates nobody. */
  lemma AllMembersMerge(gs: seq<seq<Entity>>, a: int, b: int)
    requires 0 <= b < |gs| && 0 <= a < |gs| && a != b
    ensures AllMembers(RemoveAt(gs[a := gs[a] + gs[b]], b)) == AllMembers(gs)
  {
    var g := gs[a := gs[a] + gs[b]];
    AllMembersUpdate(gs, a, gs[a] + gs[b]);
    AllMembersRemove(g, b);
    assert g[b] == gs[b];
    var r := AllMembers(RemoveAt(g, b));
    assert multiset(gs[a] + gs[b]) == multiset(gs[a]) + multiset(gs[b]);
    forall e ensures r[e] == AllMembers(gs)[e] {
      assert (AllMembers(g) + multiset(gs[a]))[e] == (AllMembers(gs) + multiset(gs[a] + gs[b]))[e];
      assert (r + multiset(gs[b]))[e] == AllMembers(g)[e];
    }
  }

  /** Ids increase strictly along the list, stated pair by pair from the left. */
  ghost predicate Increasing(ids: seq<int>)
    decreases |ids|
  {
    |ids| <= 1 || (Increasing(ids[..|ids| - 1]) && ids[|ids| - 2] < ids[|ids| - 1])
  }

  lemma {:induction false} IncreasingMeaning(ids: seq<int>)
    ensures Increasing(ids) <==> forall a, b :: 0 <= a < b < |ids| ==> ids[a] < ids[b]
    decreases |ids|
  {
    if |ids| > 1 {
      var n := |ids|;
      var front := ids[..n - 1];
      IncreasingMeaning(front);
      assert forall a :: 0 <= a < n - 1 ==> front[a] == ids[a];
      if Increasing(ids) {
        forall a, b | 0 <= a < b < n ensures ids[a] < ids[b] {
          if b == n - 1 && a < n - 2 {
            assert front[a] < front[n - 2];
          }
        }
      }
    }
  }

  lemma IncreasingRemoveAt(ids: seq<int>, k: int)
    requires Increasing(ids) && 0 <= k < |ids|
    ensures Increasing(RemoveAt(ids, k))
  {
    IncreasingMeaning(ids);
    var r := RemoveAt(ids, k);
    forall x, y | 0 <= x < y < |r| ensures r[x] < r[y] {
      var x', y' := if x < k then x else x + 1, if y < k then y else y + 1;
      assert r[x] == ids[x'] && r[y] == ids[y'] && x' < y';
    }
    IncreasingMeaning(r);
  }

  /** Each group's id maps to the sum of its members' maps, stated group by group from the left. */
  ghost predicate SumsHold(gs: seq<seq<Entity>>, ids: seq<int>, vm: map<int, map<int, real>>,
                           temIndex: map<string, map<int, TimeEntityMeasurements>>, key: MeasurementKey)
    requires |gs| == |ids|
    decreases |gs|
  {
    gs == [] ||
      var n := |gs|;
      && SumsHold(gs[..n - 1], ids[..n - 1], vm, temIndex, key)
      && ids[n - 1] in vm
      && vm[ids[n - 1]] == GroupSum(gs[n - 1], temIndex, key)
  }

  lemma {:induction false} SumsHoldMeaning(gs: seq<seq<Entity>>, ids: seq<int>, vm: map<int, map<int, real>>,
                                           temIndex: map<string, map<int, TimeEntityMeasurements>>, key: MeasurementKey)
    requires |gs| == |ids|
    ensures SumsHold(gs, ids, vm, temIndex, key) <==>
              forall k :: 0 <= k < |gs| ==> ids[k] in vm && vm[ids[k]] == GroupSum(gs[k], temIndex, key)
    decreases |gs|
  {
    if gs != [] {
      var n := |gs|;
      SumsHoldMeaning(gs[..n - 1], ids[..n - 1], vm, temIndex, key);
    }
  }

  /**
   * The extractor's state as values: the members of each group, the group
   * ids and the id -> (beat id -> value) map. Every entity of the population
   * is in exactly one group, the ids grow along the list, and each group's
   * map is the key-wise sum of its members' maps.
   */
  ghost predicate Partition(gs: seq<seq<Entity>>, ids: seq<int>, vm: map<int, map<int, real>>, population: seq<Entity>,
                            temIndex: map<string, map<int, TimeEntityMeasurements>>, key: MeasurementKey)
  {
    && |gs| == |ids|
    && AllMembers(gs) == multiset(population)
    && Increasing(ids)
    && SumsHold(gs, ids, vm, temIndex, key)
  }

  /** Entry k of the table after group a absorbed group b. */
  lemma MergeSumsAt(gs: seq<seq<Entity>>, ids: seq<int>, vm: map<int, map<int, real>>,
                    temIndex: map<string, map<int, TimeEntityMeasurements>>, key: MeasurementKey,
                    a: int, b: int, merged: map<int, real>, k: int)
    requires |gs| == |ids| && 0 <= b < a < |gs| && 0 <= k < |gs| - 1
    requires forall x :: 0 <= x < |gs| ==> ids[x] in vm && vm[ids[x]] == GroupSum(gs[x], temIndex, key)
    requires forall x, y :: 0 <= x < y < |ids| ==> ids[x] < ids[y]
    requires merged == GroupSum(gs[a] + gs[b], temIndex, key)
    ensures var gs', ids', vm' := RemoveAt(gs[a := gs[a] + gs[b]], b), RemoveAt(ids, b), vm[ids[a] := merged] - {ids[b]};
      ids'[k] in vm' && vm'[ids'[k]] == GroupSum(gs'[k], temIndex, key)
  {
    var j := if k < b then k else k + 1;
    assert RemoveAt(ids, b)[k] == ids[j];
    assert RemoveAt(gs[a := gs[a] + gs[b]], b)[k] == gs[a := gs[a] + gs[b]][j];
    if j != a {
      assert ids[j] != ids[a] && ids[j] != ids[b];
    }
  }

  lemma MergeSums(gs: seq<seq<Entity>>, ids: seq<int>, vm: map<int, map<int, real>>,
                  temIndex: map<string, map<int, TimeEntityMeasurements>>, key: MeasurementKey,
                  a: int, b: int, merged: map<int, real>)
    requires |gs| == |ids| && 0 <= b < a < |gs|
    requires SumsHold(gs, ids, vm, temIndex, key) && Increasing(ids)
    requires merged == GroupSum(gs[a] + gs[b], temIndex, key)
    ensures SumsHold(RemoveAt(gs[a := gs[a] + gs[b]], b), RemoveAt(ids, b), vm[ids[a] := merged] - {ids[b]}, temIndex, key)
  {
    SumsHoldMeaning(gs, ids, vm, temIndex, key);
    IncreasingMeaning(ids);
    forall k | 0 <= k < |gs| - 1
      ensures var gs', ids', vm' := RemoveAt(gs[a := gs[a] + gs[b]], b), RemoveAt(ids, b), vm[ids[a] := merged] - {ids[b]};
        ids'[k] in vm' && vm'[ids'[k]] == GroupSum(gs'[k], temIndex, key)
    {
      MergeSumsAt(gs, ids, vm, temIndex, key, a, b, merged, k);
    }
    SumsHoldMeaning(RemoveAt(gs[a := gs[a] + gs[b]], b), RemoveAt(ids, b), vm[ids[a] := merged] - {ids[b]}, temIndex, key);
  }

  /** The survivor's map after the merge loop is the sum over both groups' members. */
  lemma MergedGroupSum(gs: seq<seq<Entity>>, ids: seq<int>, vm: map<int, map<int, real>>,
                       temIndex: map<string, map<int, TimeEntityMeasurements>>, key: MeasurementKey, a: int, b: int)
    requires |gs| == |ids| && 0 <= b < a < |gs|
    requires SumsHold(gs, ids, vm, temIndex, key)
    ensures ids[a] in vm && ids[b] in vm
    ensures MergeAdd(vm[ids[a]], vm[ids[b]]) == GroupSum(gs[a] + gs[b], temIndex, key)
  {
    SumsHoldMeaning(gs, ids, vm, temIndex, key);
    GroupSumAppend(gs[a], gs[b], temIndex, key);
  }

  /** mergeEntityGroups keeps the partition: nobody is lost, and the survivor's map is the sum of the two. */
  lemma MergeKeepsPartition(gs: seq<seq<Entity>>, ids: seq<int>, vm: map<int, map<int, real>>, population: seq<Entity>,
                            temIndex: map<string, map<int, TimeEntityMeasurements>>, key: MeasurementKey, a: int, b: int)
    requires Partition(gs, ids, vm, population, temIndex, key) && 0 <= b < a < |gs|
    ensures ids[a] in vm && ids[b] in vm
    ensures Partition(RemoveAt(gs[a := gs[a] + gs[b]], b), RemoveAt(ids, b),
                      vm[ids[a] := MergeAdd(vm[ids[a]], vm[ids[b]])] - {ids[b]}, population, temIndex, key)
  {
    MergedGroupSum(gs, ids, vm, temIndex, key, a, b);
    AllMembersMerge(gs, a, b);
    IncreasingRemoveAt(ids, b);
    MergeSums(gs, ids, vm, temIndex, key, a, b, MergeAdd(vm[ids[a]], vm[ids[b]]));
  }

  /** The first n groups are the singletons of the first n entities, each with that entity's value map. */
  ghost predicate Singletons(gs: seq<seq<Entity>>, ids: seq<int>, vm: map<int, map<int, real>>, population: seq<Entity>,
                             temIndex: map<string, map<int, TimeEntityMeasurements>>, key: MeasurementKey, n: int)
  {
    && n <= |gs| && n <= |ids| && n <= |population|
    && forall k :: 0 <= k < n ==>
         gs[k] == [population[k]] && ids[k] == k && k in vm && vm[k] == EntityValueMap(temIndex, population[k].entityName, key)
  }

  /** One more singleton: entity n alone in group n, with its value map. */
  lemma SingletonsStep(gs: seq<seq<Entity>>, ids: seq<int>, vm: map<int, map<int, real>>, population: seq<Entity>,
                       temIndex: map<string, map<int, TimeEntityMeasurements>>, key: MeasurementKey, n: int)
    requires 0 <= n < |population| && |gs| == |ids| == n && Singletons(gs, ids, vm, population, temIndex, key, n)
    ensures Singletons(gs + [[population[n]]], ids + [n], vm[n := EntityValueMap(temIndex, population[n].entityName, key)],
                       population, temIndex, key, n + 1)
  {
  }

  /** The state init leaves: one group per entity, ids 0, 1, ..., each map that entity's. */
  lemma SingletonPartition(gs: seq<seq<Entity>>, ids: seq<int>, vm: map<int, map<int, real>>, population: seq<Entity>,
                           temIndex: map<string, map<int, TimeEntityMeasurements>>, key: MeasurementKey)
    requires |gs| == |ids| == |population| && Singletons(gs, ids, vm, population, temIndex, key, |population|)
    ensures Partition(gs, ids, vm, population, temIndex, key)
  {
    SingletonMembers(gs, population);
    IncreasingMeaning(ids);
    forall k | 0 <= k < |gs| ensures GroupSum(gs[k], temIndex, key) == vm[k] {
      GroupSumSingle(population[k], temIndex, key);
    }
    SumsHoldMeaning(gs, ids, vm, temIndex, key);
  }

  lemma {:induction false} SingletonMembers(gs: seq<seq<Entity>>, population: seq<Entity>)
    requires |gs| == |population|
    requires forall k :: 0 <= k < |gs| ==> gs[k] == [population[k]]
    ensures AllMembers(gs) == multiset(population)
    decreases |gs|
  {
    if gs != [] {
      var n := |gs|;
      SingletonMembers(gs[..n - 1], population[..n - 1]);
      assert population == population[..n - 1] + [population[n - 1]];
    }
  }

  /** Pair (i', j') of the scan comes before pair (i, j): rows by i ascending, then j ascending. */
  predicate ScannedBefore(i': int, j': int, i: int, j: int)
  {
    i' < i || (i' == i && j' < j)
  }

  class EntityGroupExtractor {
    const profile: EntityClusteringProfile
    const key: MeasurementKey
    /** The data handler's population, its entity name -> beat id -> TEM index and its timeline length. */
    const population: seq<Entity>
    const temIndex: map<string, map<int, TimeEntityMeasurements>>
    const timelineSize: int
    /** Math.sqrt. */
    const root: real -> real

    var groupList: seq<EntityGroup>
    var valueMap: map<int, map<int, real>>
    /** The groups' members and ids as values. */
    ghost var groups: seq<seq<Entity>>
    ghost var ids: seq<int>

    /** The single-profile constructor: RAW values, summed over all changes for schema histories, unaggregated otherwise. */
    constructor (profile: EntityClusteringProfile, fileType: FileType, population: seq<Entity>,
                 temIndex: map<string, map<int, TimeEntityMeasurements>>, timelineSize: int, root: real -> real)
      ensures this.profile == profile && this.population == population && this.temIndex == temIndex
      ensures this.timelineSize == timelineSize && this.root == root
      ensures key == MeasurementKey(RAW_VALUE, if fileType != SCHEMA_EVO then NO_AGGREGATION else SUM_OF_ALL)
    {
      this.profile := profile;
      this.key := MeasurementKey(RAW_VALUE, if fileType != SCHEMA_EVO then NO_AGGREGATION else SUM_OF_ALL);
      this.population := population;
      this.temIndex := temIndex;
      this.timelineSize := timelineSize;
      this.root := root;
    }

    /** The constructor that names the measurement and aggregation kinds. */
    constructor WithKinds(mt: MeasurementType, at: AggregationType, profile: EntityClusteringProfile, population: seq<Entity>,
                          temIndex: map<string, map<int, TimeEntityMeasurements>>, timelineSize: int, root: real -> real)
      ensures this.profile == profile && this.population == population && this.temIndex == temIndex
      ensures this.timelineSize == timelineSize && this.root == root
      ensures key == MeasurementKey(mt, at)
    {
      this.profile := profile;
      this.key := MeasurementKey(mt, at);
      this.population := population;
      this.temIndex := temIndex;
      this.timelineSize := timelineSize;
      this.root := root;
    }

    /** Each group object is valid and holds the members and id the values say. */
    ghost predicate Linked()
      reads this, groupList
    {
      && |groupList| == |groups| && |groups| == |ids|
      && forall k :: 0 <= k < |groupList| ==>
           groupList[k].Valid() && groupList[k].members == groups[k] && groupList[k].entityGroupId == ids[k]
    }

    /** Every group id has a value map. */
    ghost predicate Keyed()
      reads this
    {
      forall k :: 0 <= k < |ids| ==> ids[k] in valueMap
    }

    ghost predicate Valid()
      reads this, groupList
    {
      Distinct(groupList) && Linked() && Partition(groups, ids, valueMap, population, temIndex, key) && Keyed()
    }

    /** Every group has a member and a value map, and the timeline is not empty: the distances are defined. */
    ghost predicate Measurable()
      reads this
    {
      && |groups| == |ids| && timelineSize >= 1
      && forall k :: 0 <= k < |groups| ==> |groups[k]| >= 1 && ids[k] in valueMap
    }

    /** The weighted distance of groups i and j, computed from their life details and value maps. */
    ghost function Distance(i: int, j: int): real
      requires Measurable() && 0 <= i < |groups| && 0 <= j < |groups|
      reads this
    {
      var lifeA, lifeB := GroupLife(groups[i]), GroupLife(groups[j]);
      WeightedDistance(profile, root,
        BirthDistance(lifeA.birthBeatId, lifeB.birthBeatId, timelineSize),
        DeathDistance(lifeA.deathBeatId, lifeB.deathBeatId, timelineSize),
        ChangeDistanceSq(valueMap[ids[i]], valueMap[ids[j]]))
    }

    /** (a, b) is the first closest among the pairs (i', j'), j' < i', scanned before (i, j). */
    ghost predicate BestSoFar(a: int, b: int, i: int, j: int)
      requires Measurable()
      reads this
    {
      && 0 <= b < a < |groups| && ScannedBefore(a, b, i, j)
      && (forall i', j' :: 0 <= j' < i' < |groups| && ScannedBefore(i', j', i, j) ==> Distance(a, b) <= Distance(i', j'))
      && (forall i', j' :: 0 <= j' < i' < |groups| && ScannedBefore(i', j', a, b) ==> Distance(i', j') > Distance(a, b))
    }

    /**
     * (a, b) with b < a is the first pair of the scan at the least distance:
     * no pair is closer, and every pair scanned before it is strictly farther.
     */
    ghost predicate FirstClosest(a: int, b: int)
      requires Measurable()
      reads this
    {
      BestSoFar(a, b, |groups|, 0)
    }

    /** The scan's choice is determined: at most one pair is the first closest. */
    lemma FirstClosestUnique(a: int, b: int, a': int, b': int)
      requires Measurable() && FirstClosest(a, b) && FirstClosest(a', b')
      ensures a == a' && b == b'
    {
      if ScannedBefore(a, b, a', b') {
        assert false;
      } else if ScannedBefore(a', b', a, b) {
        assert false;
      }
    }

    /** The first pair scanned is the best so far. */
    lemma ScanStart()
      requires Measurable() && |groups| >= 2
      ensures BestSoFar(1, 0, 1, 1)
    {
    }

    /** One step of the inner loop: the strict test keeps the earlier pair on ties. */
    lemma ScanStep(a: int, b: int, i: int, j: int)
      requires Measurable() && BestSoFar(a, b, i, j) && 0 <= j < i < |groups|
      ensures Distance(a, b) > Distance(i, j) ==> BestSoFar(i, j, i, j + 1)
      ensures Distance(a, b) <= Distance(i, j) ==> BestSoFar(a, b, i, j + 1)
    {
    }

    /** The end of row i is the start of row i + 1. */
    lemma ScanRowEnd(minDistance: Option<real>, a: int, b: int, i: int)
      requires Measurable() && Scanned(minDistance, a, b, i, i)
      ensures Scanned(minDistance, a, b, i + 1, 0)
    {
    }

    /** Pair (i, j) scanned: it becomes the best only when nothing was seen yet or it is strictly closer. */
    lemma ScanNext(minDistance: Option<real>, a: int, b: int, i: int, j: int)
      requires Measurable() && 0 <= j < i < |groups| && Scanned(minDistance, a, b, i, j)
      ensures minDistance.None? || minDistance.value > Distance(i, j) ==> Scanned(Some(Distance(i, j)), i, j, i, j + 1)
      ensures minDistance.Some? && minDistance.value <= Distance(i, j) ==> Scanned(minDistance, a, b, i, j + 1)
    {
      if minDistance.None? {
        ScanStart();
      } else {
        ScanStep(a, b, i, j);
      }
    }

    /** The live groups satisfy the distances' preconditions. */
    lemma LinkedMeasurable()
      requires Linked() && Keyed() && timelineSize >= 1
      ensures Measurable()
    {
      forall k | 0 <= k < |groups| ensures |groups[k]| >= 1 {
        assert groupList[k].Valid();
      }
    }

    /**
     * clusterData: one group per entity, merge the closest pair while more
     * than M groups remain, then number the groups 0, 1, ... in list order.
     * Every entity ends up in exactly one group.
     */
    method ClusterData() returns (result: seq<EntityGroup>)
      requires profile.desiredNumberOfEntityGroups >= 1
      requires |population| <= profile.desiredNumberOfEntityGroups || timelineSize >= 1
      modifies this
      ensures result == groupList && Distinct(result) && Linked()
      ensures |result| == Min(|population|, profile.desiredNumberOfEntityGroups)
      ensures AllMembers(groups) == multiset(population)
      ensures forall k :: 0 <= k < |result| ==> result[k].entityGroupId == k
    {
      Init();
      ghost var initial := groupList;
      MergeRounds();
      forall k | 0 <= k < |groupList| ensures fresh(groupList[k]) {
        var j :| 0 <= j < |initial| && initial[j] == groupList[k];
      }
      RenameEntityGroups();
      result := groupList;
    }

    /** The clusterData loop: merge the closest pair while more than M groups remain. */
    method MergeRounds()
      requires Valid() && profile.desiredNumberOfEntityGroups >= 1 && |groupList| == |population|
      requires |population| <= profile.desiredNumberOfEntityGroups || timelineSize >= 1
      modifies this, groupList
      ensures Valid()
      ensures |groupList| == Min(|population|, profile.desiredNumberOfEntityGroups)
      ensures forall k :: 0 <= k < |groupList| ==> groupList[k] in old(groupList)
    {
      while |groupList| > profile.desiredNumberOfEntityGroups
        invariant Valid()
        invariant |groupList| <= |population|
        invariant |groupList| >= Min(|population|, profile.desiredNumberOfEntityGroups)
        invariant forall k :: 0 <= k < |groupList| ==> groupList[k] in old(groupList)
        decreases |groupList|
      {
        var a, b := MergeClosestPair();
      }
    }

    /** One round of clusterData: the first closest pair is merged, the group at the larger index absorbing the other. */
    method MergeClosestPair() returns (a: int, b: int)
      requires Valid() && timelineSize >= 1 && |groupList| >= 2
      modifies this, groupList
      ensures Valid()
      ensures old(Measurable() && FirstClosest(a, b))
      ensures groupList == RemoveAt(old(groupList), b)
      ensures groups == RemoveAt(old(groups)[a := old(groups)[a] + old(groups)[b]], b)
      ensures forall k :: 0 <= k < |groupList| ==> groupList[k] in old(groupList)
    {
      a, b := ClosestPair();
      MergeEntityGroups(a, b);
    }

    /** The pair scan of clusterData: i ascending, j below i ascending, the strict test keeping the first closest pair. */
    method ClosestPair() returns (a: int, b: int)
      requires Linked() && Keyed() && timelineSize >= 1 && |groupList| >= 2
      ensures Measurable() && FirstClosest(a, b)
    {
      LinkedMeasurable();
      var minDistance: Option<real> := None;
      a, b := 0, 0;
      var i := 0;
      while i < |groupList|
        invariant 0 <= i <= |groupList|
        invariant Scanned(minDistance, a, b, i, 0)
      {
        minDistance, a, b := ScanRow(i, minDistance, a, b);
        ScanRowEnd(minDistance, a, b, i);
        i := i + 1;
      }
    }

    /** Where the scan stands before pair (i, j): nothing seen yet, or the best pair so far and its distance. */
    ghost predicate Scanned(minDistance: Option<real>, a: int, b: int, i: int, j: int)
      requires Measurable()
      reads this
    {
      match minDistance
      case None => i <= 1 && j == 0 && a == 0 && b == 0
      case Some(d) => BestSoFar(a, b, i, j) && d == Distance(a, b)
    }

    /** The state the pair scan reads: linked, keyed and measurable groups. */
    ghost predicate ScanReady()
      reads this, groupList
    {
      Linked() && Keyed() && Measurable()
    }

    /** Row i of the pair scan: j runs from 0 up to i - 1. */
    method ScanRow(i: int, minDistance: Option<real>, a: int, b: int) returns (minDistance': Option<real>, a': int, b': int)
      requires ScanReady() && 0 <= i < |groupList|
      requires Scanned(minDistance, a, b, i, 0)
      ensures Scanned(minDistance', a', b', i, i)
    {
      minDistance', a', b' := minDistance, a, b;
      for j := 0 to i
        invariant Scanned(minDistance', a', b', i, j)
      {
        minDistance', a', b' := ScanPair(i, j, minDistance', a', b');
      }
    }

    /** The body of the inner scan loop: pair (i, j) replaces the best so far only when strictly closer. */
    method ScanPair(i: int, j: int, minDistance: Option<real>, a: int, b: int) returns (minDistance': Option<real>, a': int, b': int)
      requires ScanReady() && 0 <= j < i < |groupList|
      requires Scanned(minDistance, a, b, i, j)
      ensures Scanned(minDistance', a', b', i, j + 1)
    {
      var distance := PairDistanceAt(i, j);
      ScanNext(minDistance, a, b, i, j);
      if minDistance.None? || minDistance.value > distance {
        minDistance', a', b' := Some(distance), i, j;
      } else {
        minDistance', a', b' := minDistance, a, b;
      }
    }

    /** The distance of groups i and j as the source computes it. */
    method PairDistanceAt(i: int, j: int) returns (distance: real)
      requires ScanReady()
      requires 0 <= i < |groupList| && 0 <= j < |groupList|
      ensures distance == Distance(i, j)
    {
      var first, second := groupList[i], groupList[j];
      var birthDistance := BirthDistance(first.lifeDetails.birthBeatId, second.lifeDetails.birthBeatId, timelineSize);
      var deathDistance := DeathDistance(first.lifeDetails.deathBeatId, second.lifeDetails.deathBeatId, timelineSize);
      var changesSq := SquaredChangeDistance(valueMap[first.entityGroupId], valueMap[second.entityGroupId]);
      distance := WeightedDistance(profile, root, birthDistance, deathDistance, changesSq);
    }

    /**
     * mergeEntityGroups(a, b): group a absorbs group b's members, b's map is
     * added into a's key by key, then b's map and list entry are removed.
     */
    method MergeEntityGroups(a: int, b: int)
      requires Valid() && 0 <= b < a < |groupList|
      modifies this, groupList[a]
      ensures Valid()
      ensures groupList == RemoveAt(old(groupList), b)
      ensures groups == RemoveAt(old(groups)[a := old(groups)[a] + old(groups)[b]], b)
      ensures ids == RemoveAt(old(ids), b)
      ensures valueMap == old(valueMap)[old(ids)[a] := MergeAdd(old(valueMap)[old(ids)[a]], old(valueMap)[old(ids)[b]])] - {old(ids)[b]}
    {
      ghost var gl, gs, starts, vm := groupList, groups, ids, valueMap;
      var firstId, secondId := MergeMembers(a, b);
      var merged := MergeInto(valueMap[firstId], valueMap[secondId]);
      valueMap := valueMap[firstId := merged];
      valueMap := valueMap - {secondId};
      MergedValid(gl, gs, starts, vm, a, b);
    }

    /** The object side of mergeEntityGroups: group a absorbs group b's members and b leaves the list. */
    method MergeMembers(a: int, b: int) returns (firstId: int, secondId: int)
      requires Distinct(groupList) && Linked() && 0 <= b < a < |groupList|
      modifies this, groupList[a]
      ensures Linked() && valueMap == old(valueMap)
      ensures groupList == RemoveAt(old(groupList), b)
      ensures groups == RemoveAt(old(groups)[a := old(groups)[a] + old(groups)[b]], b)
      ensures ids == RemoveAt(old(ids), b)
      ensures firstId == old(ids)[a] && secondId == old(ids)[b]
    {
      ghost var gl, gs, starts := groupList, groups, ids;
      var first, second := groupList[a], groupList[b];
      first.MergeWithEntityGroup(second);
      firstId, secondId := first.entityGroupId, second.entityGroupId;
      groupList := RemoveAt(groupList, b);
      groups := RemoveAt(gs[a := gs[a] + gs[b]], b);
      ids := RemoveAt(ids, b);
      forall k | 0 <= k < |groupList|
        ensures groupList[k].Valid() && groupList[k].members == groups[k] && groupList[k].entityGroupId == ids[k]
      {
        var j := if k < b then k else k + 1;
        assert groupList[k] == gl[j] && groups[k] == gs[a := gs[a] + gs[b]][j] && ids[k] == starts[j];
        if j != a {
          assert gl[j] != gl[a] by { assert Distinct(gl); }
        }
      }
    }

    /** The state mergeEntityGroups leaves is valid again. */
    lemma MergedValid(gl: seq<EntityGroup>, gs: seq<seq<Entity>>, starts: seq<int>, vm: map<int, map<int, real>>, a: int, b: int)
      requires Distinct(gl) && Partition(gs, starts, vm, population, temIndex, key) && |gl| == |gs| && 0 <= b < a < |gs|
      requires groupList == RemoveAt(gl, b) && Linked()
      requires groups == RemoveAt(gs[a := gs[a] + gs[b]], b) && ids == RemoveAt(starts, b)
      requires starts[a] in vm && starts[b] in vm
      requires valueMap == vm[starts[a] := MergeAdd(vm[starts[a]], vm[starts[b]])] - {starts[b]}
      ensures Valid()
    {
      DistinctRemoveAt(gl, b);
      MergeKeepsPartition(gs, starts, vm, population, temIndex, key, a, b);
      SumsHoldMeaning(groups, ids, valueMap, temIndex, key);
    }

    /** init: one group per entity, with id = its position, holding the entity's value map. */
    method Init()
      modifies this
      ensures Valid()
      ensures |groupList| == |population|
      ensures forall k :: 0 <= k < |groupList| ==> groups[k] == [population[k]] && ids[k] == k
      ensures forall k :: 0 <= k < |groupList| ==> fresh(groupList[k])
    {
      AddSingletonGroups();
      InitialValid();
    }

    /** The init loop: group k is a fresh group holding entity k alone, with that entity's value map. */
    method AddSingletonGroups()
      modifies this
      ensures |groupList| == |population| && Linked() && Singletons(groups, ids, valueMap, population, temIndex, key, |population|)
      ensures forall k :: 0 <= k < |groupList| ==> fresh(groupList[k])
    {
      groupList := [];
      valueMap := map[];
      groups := [];
      ids := [];
      for entityGroupId := 0 to |population|
        invariant |groupList| == entityGroupId && Linked() && Singletons(groups, ids, valueMap, population, temIndex, key, entityGroupId)
        invariant forall k :: 0 <= k < entityGroupId ==> fresh(groupList[k])
      {
        AddSingletonGroup(entityGroupId);
      }
    }

    /** One round of the init loop: a fresh group holding entity j alone, with that entity's value map. */
    method AddSingletonGroup(j: nat)
      requires j < |population| && |groupList| == j && Linked() && Singletons(groups, ids, valueMap, population, temIndex, key, j)
      modifies this
      ensures |groupList| == j + 1 && Linked() && Singletons(groups, ids, valueMap, population, temIndex, key, j + 1)
      ensures groupList[..j] == old(groupList) && fresh(groupList[j])
    {
      var entity := population[j];
      var group := new EntityGroup(j, entity);
      groupList := groupList + [group];
      groups := groups + [[entity]];
      ids := ids + [j];
      var values := EntityValues(entity.entityName);
      SingletonsStep(old(groups), old(ids), old(valueMap), population, temIndex, key, j);
      valueMap := valueMap[j := values];
    }

    /** The inner loop of init: the entity's value for the selected key at each beat it has a TEM for. */
    method EntityValues(name: string) returns (m: map<int, real>)
      ensures m == EntityValueMap(temIndex, name, key)
    {
      m := map[];
      if name in temIndex {
        var tems := temIndex[name];
        var beatIds := tems.Keys;
        while beatIds != {}
          invariant beatIds <= tems.Keys
          invariant m == map beatId | beatId in tems.Keys - beatIds :: tems[beatId].ValueOfKey(key)
          decreases |beatIds|
        {
          NonEmpty(beatIds);
          var beatId :| beatId in beatIds;
          m := m[beatId := tems[beatId].ValueOfKey(key)];
          beatIds := beatIds - {beatId};
        }
      }
    }

    /** The state the init loop leaves is valid: ids tell the groups apart, and the groups are singletons. */
    lemma InitialValid()
      requires |groupList| == |population| && Linked() && Singletons(groups, ids, valueMap, population, temIndex, key, |population|)
      ensures Valid()
    {
      forall x, y | 0 <= x < y < |groupList| ensures groupList[x] != groupList[y] {
        assert groupList[x].entityGroupId != groupList[y].entityGroupId;
      }
      SingletonPartition(groups, ids, valueMap, population, temIndex, key);
    }

    /** renameEntityGroups: the k-th group gets id k; the members stay where they are. */
    method RenameEntityGroups()
      requires Distinct(groupList) && Linked()
      modifies this, groupList
      ensures groupList == old(groupList) && groups == old(groups) && Linked()
      ensures forall k :: 0 <= k < |groupList| ==> ids[k] == k
      ensures Distinct(groupList)
    {
      var k := 0;
      while k < |groupList|
        invariant 0 <= k <= |groupList| && groupList == old(groupList) && groups == old(groups)
        invariant Linked()
        invariant forall x :: 0 <= x < k ==> ids[x] == x
      {
        groupList[k].SetEntityGroupId(k);
        ids := ids[k := k];
        k := k + 1;
      }
    }
  }
}
