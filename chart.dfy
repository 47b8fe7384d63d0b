/**
 * A row of the chart, ChartGroupPhaseMeasurement: one entity group with the
 * measurement of the selected kinds in each phase where it has one, and
 * its activity; plus the comparator the rows are sorted with.
 */
module Chart {
  import opened Wrappers
  import opened Kinds
  import opened Models
  import opened Lists
  import opened Groups

  class ChartGroupPhaseMeasurement {
    const entityGroup: EntityGroup
    var measurementToPhaseMap: map<int, IMeasurement>
    var activity: int
    /** The phase ids addMeasurement was called with, in call order. */
    ghost var addedPhases: seq<int>

    /** Built by addMeasurement calls only: one unit of activity per call, one entry per phase id used. */
    ghost predicate Valid()
      reads this
    {
      activity == |addedPhases| && measurementToPhaseMap.Keys == set p | p in addedPhases
    }

    constructor (entityGroup: EntityGroup)
      ensures this.entityGroup == entityGroup && activity == 0 && measurementToPhaseMap == map[]
      ensures addedPhases == [] && Valid()
    {
      this.entityGroup := entityGroup;
      activity := 0;
      measurementToPhaseMap := map[];
      addedPhases := [];
    }

    /** addMeasurement: the phase's entry is stored or overwritten, and the activity always grows by one. */
    method AddMeasurement(phaseId: int, measurement: IMeasurement)
      modifies this
      ensures measurementToPhaseMap == old(measurementToPhaseMap)[phaseId := measurement]
      ensures activity == old(activity) + 1 && addedPhases == old(addedPhases) + [phaseId]
      ensures old(Valid()) ==> Valid()
    {
      measurementToPhaseMap := measurementToPhaseMap[phaseId := measurement];
      activity := activity + 1;
      addedPhases := addedPhases + [phaseId];
    }

    /** getMeasurement: the stored entry, or None for Java's null. */
    function GetMeasurement(phaseId: int): (r: Option<IMeasurement>)
      reads this
      ensures r.Some? <==> phaseId in measurementToPhaseMap
      ensures r.Some? ==> r.value == measurementToPhaseMap[phaseId]
    {
      if phaseId in measurementToPhaseMap then Some(measurementToPhaseMap[phaseId]) else None
    }

    function ContainsMeasurementInPhase(phaseId: int): (r: bool)
      reads this
      ensures r <==> GetMeasurement(phaseId).Some?
    {
      phaseId in measurementToPhaseMap
    }

    function NumberOfMeasurements(): (n: nat)
      reads this
      ensures n == |measurementToPhaseMap.Keys|
    {
      |measurementToPhaseMap|
    }

    /** setMeasurementToPhaseMap: the map is replaced and the activity left as it was. */
    method SetMeasurementToPhaseMap(m: map<int, IMeasurement>)
      modifies this
      ensures measurementToPhaseMap == m && activity == old(activity) && addedPhases == old(addedPhases)
    {
      measurementToPhaseMap := m;
    }
  }

  /**
   * A row built by addMeasurement calls has at least as much activity as
   * entries, exactly as much when no phase id was used twice.
   */
  lemma ActivityCountsEntries(row: ChartGroupPhaseMeasurement)
    requires row.Valid()
    ensures row.NumberOfMeasurements() <= row.activity
    ensures row.NumberOfMeasurements() == row.activity <==> Distinct(row.addedPhases)
  {
    ElementCount(row.addedPhases);
  }

  // ----- the comparator -----

  /** Integer.compare: -1, 0 or 1 as a is below, equal to or above b. */
  function CompareInt(a: int, b: int): (r: int)
    ensures r == 0 <==> a == b
    ensures r < 0 <==> a < b
    ensures -1 <= r <= 1
  {
    if a < b then -1 else if a == b then 0 else 1
  }

  predicate Ascending(t: SortingType) {
    t == ACTIVITY_ASCENDING || t == BIRTH_ASCENDING || t == LIFE_DURATION_ASCENDING
  }

  /** The value a sorting type compares: the birth beat id, the duration, or the row's activity. */
  function SortKey(t: SortingType, life: LifeDetails, activity: int): int
  {
    match t
    case BIRTH_ASCENDING => life.birthBeatId
    case BIRTH_DESCENDING => life.birthBeatId
    case LIFE_DURATION_ASCENDING => life.duration
    case LIFE_DURATION_DESCENDING => life.duration
    case ACTIVITY_ASCENDING => activity
    case ACTIVITY_DESCENDING => activity
  }

  /**
   * compare(o1, o2): Comparator.comparing on the selected key, reversed() for
   * the descending types (which compares the arguments the other way round).
   */
  function Compare(t: SortingType, life1: LifeDetails, activity1: int, life2: LifeDetails, activity2: int): int
  {
    var k1, k2 := SortKey(t, life1, activity1), SortKey(t, life2, activity2);
    match t
    case BIRTH_ASCENDING => CompareInt(k1, k2)
    case BIRTH_DESCENDING => CompareInt(k2, k1)
    case LIFE_DURATION_ASCENDING => CompareInt(k1, k2)
    case LIFE_DURATION_DESCENDING => CompareInt(k2, k1)
    case ACTIVITY_ASCENDING => CompareInt(k1, k2)
    case ACTIVITY_DESCENDING => CompareInt(k2, k1)
  }

  /** a may precede b: keys non-decreasing for the ascending types, non-increasing for the descending ones. */
  predicate InOrder(a: int, b: int, ascending: bool) {
    if ascending then a <= b else a >= b
  }

  /**
   * compare is 0 exactly when the selected keys are equal, it is
   * antisymmetric and transitive, and it says "not after" exactly when the
   * keys are in the type's order.
   */
  lemma CompareIsAnOrder(t: SortingType, l1: LifeDetails, a1: int, l2: LifeDetails, a2: int, l3: LifeDetails, a3: int)
    ensures Compare(t, l1, a1, l2, a2) == 0 <==> SortKey(t, l1, a1) == SortKey(t, l2, a2)
    ensures Compare(t, l1, a1, l2, a2) == -Compare(t, l2, a2, l1, a1)
    ensures Compare(t, l1, a1, l2, a2) <= 0 <==> InOrder(SortKey(t, l1, a1), SortKey(t, l2, a2), Ascending(t))
    ensures Compare(t, l1, a1, l2, a2) <= 0 && Compare(t, l2, a2, l3, a3) <= 0 ==> Compare(t, l1, a1, l3, a3) <= 0
  {
  }

  // ----- List.sort with that comparator, as an insertion sort over keyed values -----

  predicate SortedBy<T>(s: seq<T>, key: T -> int, ascending: bool) {
    forall i, j :: 0 <= i < j < |s| ==> InOrder(key(s[i]), key(s[j]), ascending)
  }

  /** x goes before the first element it is in order with, so it stays ahead of equal keys. */
  function InsertBy<T>(x: T, s: seq<T>, key: T -> int, ascending: bool): (r: seq<T>)
    ensures multiset(r) == multiset(s) + multiset{x}
  {
    if s == [] || InOrder(key(x), key(s[0]), ascending) then [x] + s
    else
      assert s == [s[0]] + s[1..];
      [s[0]] + InsertBy(x, s[1..], key, ascending)
  }

  lemma {:induction false} InsertBySorted<T>(x: T, s: seq<T>, key: T -> int, ascending: bool)
    requires SortedBy(s, key, ascending)
    ensures SortedBy(InsertBy(x, s, key, ascending), key, ascending)
    decreases |s|
  {
    if s != [] && !InOrder(key(x), key(s[0]), ascending) {
      var rest := InsertBy(x, s[1..], key, ascending);
      InsertBySorted(x, s[1..], key, ascending);
      forall j | 0 <= j < |rest| ensures InOrder(key(s[0]), key(rest[j]), ascending) {
        assert rest[j] in multiset(rest);
        if rest[j] != x {
          assert rest[j] in multiset(s[1..]);
          var k :| 0 <= k < |s[1..]| && s[1..][k] == rest[j];
          assert s[k + 1] == rest[j];
        }
      }
    }
  }

  /** The sorted order: the same rows, with keys in the type's order. */
  function SortBy<T>(s: seq<T>, key: T -> int, ascending: bool): (r: seq<T>)
    ensures multiset(r) == multiset(s)
    ensures SortedBy(r, key, ascending)
  {
    if s == [] then []
    else
      assert s == [s[0]] + s[1..];
      var sorted := SortBy(s[1..], key, ascending);
      InsertBySorted(s[0], sorted, key, ascending);
      InsertBy(s[0], sorted, key, ascending)
  }

  // ----- stability -----

  /** The elements of s whose key is k, in their order in s. */
  function WithKey<T>(s: seq<T>, key: T -> int, k: int): seq<T>
    decreases |s|
  {
    if s == [] then [] else (if key(s[0]) == k then [s[0]] else []) + WithKey(s[1..], key, k)
  }

  lemma WithKeyCons<T>(x: T, s: seq<T>, key: T -> int, k: int)
    ensures WithKey([x] + s, key, k) == (if key(x) == k then [x] else []) + WithKey(s, key, k)
  {
    assert ([x] + s)[0] == x && ([x] + s)[1..] == s;
  }

  /**
   * Inserting x keeps it ahead of every element of its key: the elements it
   * passes have other keys, so each key's elements keep the order of [x] + s.
   */
  lemma {:induction false} InsertByStable<T>(x: T, s: seq<T>, key: T -> int, ascending: bool, k: int)
    ensures WithKey(InsertBy(x, s, key, ascending), key, k) == WithKey([x] + s, key, k)
    decreases |s|
  {
    if s != [] && !InOrder(key(x), key(s[0]), ascending) {
      var rest := s[1..];
      assert s == [s[0]] + rest;
      InsertByStable(x, rest, key, ascending, k);
      WithKeyCons(s[0], InsertBy(x, rest, key, ascending), key, k);
      WithKeyCons(x, rest, key, k);
      WithKeyCons(s[0], rest, key, k);
      WithKeyCons(x, s, key, k);
      assert key(x) != key(s[0]);
    }
  }

  /**
   * List.sort is stable: for every key, the elements with that key appear in
   * the sorted list in the order they had before.
   */
  lemma {:induction false} SortByStable<T>(s: seq<T>, key: T -> int, ascending: bool, k: int)
    ensures WithKey(SortBy(s, key, ascending), key, k) == WithKey(s, key, k)
    decreases |s|
  {
    if s != [] {
      var sorted := SortBy(s[1..], key, ascending);
      assert s == [s[0]] + s[1..];
      SortByStable(s[1..], key, ascending, k);
      InsertByStable(s[0], sorted, key, ascending, k);
      WithKeyCons(s[0], sorted, key, k);
      WithKeyCons(s[0], s[1..], key, k);
    }
  }
}
