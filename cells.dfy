/**
 * One cell of the summarised grid, GroupPhaseMeasurement: the TEMs of a
 * group's members at the beats of a phase, and their measurements summed
 * kind by kind. The list algebra comes first, then the class.
 */
module Cells {
  import opened Wrappers
  import opened Kinds
  import opened Models
  import opened Lists
  import opened Phases
  import opened Groups

  /** The kinds of each measurement, in list order (None for an empty measurement's null kinds). */
  function KindsOf(ms: seq<IMeasurement>): (r: seq<Option<MeasurementKey>>)
    ensures |r| == |ms| && forall i :: 0 <= i < |ms| ==> r[i] == ms[i].Key()
  {
    seq(|ms|, i requires 0 <= i < |ms| => ms[i].Key())
  }

  /** The sum of the values of the measurements of kinds k. */
  function KindTotal(ms: seq<IMeasurement>, k: Option<MeasurementKey>): real
  {
    if ms == [] then 0.0
    else KindTotal(ms[..|ms| - 1], k) + (if ms[|ms| - 1].Key() == k then ms[|ms| - 1].Value() else 0.0)
  }

  lemma {:induction false} KindTotalAppend(a: seq<IMeasurement>, b: seq<IMeasurement>, k: Option<MeasurementKey>)
    ensures KindTotal(a + b, k) == KindTotal(a, k) + KindTotal(b, k)
    decreases |b|
  {
    if b == [] {
      assert a + b == a;
    } else {
      assert (a + b)[..|a + b| - 1] == a + b[..|b| - 1];
      KindTotalAppend(a, b[..|b| - 1], k);
    }
  }

  /** Adding a measurement into one of the same kinds adds its value (two empty ones both stay 0). */
  lemma SameKindsAdd(a: IMeasurement, m: IMeasurement)
    requires a.Key() == m.Key()
    ensures a.AddToValue(m.Value()).Value() == a.Value() + m.Value()
    ensures a.AddToValue(m.Value()).Key() == a.Key()
  {
  }

  /** addTEM's inner loop: the new measurement's value is added into every measurement of the same kinds. */
  function AddInto(ms: seq<IMeasurement>, m: IMeasurement): (r: seq<IMeasurement>)
    ensures |r| == |ms|
    ensures forall i :: 0 <= i < |ms| ==> r[i] == (if ms[i].Key() == m.Key() then ms[i].AddToValue(m.Value()) else ms[i])
  {
    seq(|ms|, i requires 0 <= i < |ms| => if ms[i].Key() == m.Key() then ms[i].AddToValue(m.Value()) else ms[i])
  }

  /** One round of addTEM's outer loop: added into the measurement of the same kinds, or appended when there is none. */
  function Absorb(ms: seq<IMeasurement>, m: IMeasurement): seq<IMeasurement>
  {
    if m.Key() in KindsOf(ms) then AddInto(ms, m) else ms + [m]
  }

  /** The measurements absorbed one after the other, from the left. */
  function Absorbed(ms: seq<IMeasurement>, added: seq<IMeasurement>): seq<IMeasurement>
  {
    if added == [] then ms else Absorb(Absorbed(ms, added[..|added| - 1]), added[|added| - 1])
  }

  /** At most one measurement per (measurement, aggregation) kind. */
  predicate UniqueKinds(ms: seq<IMeasurement>) {
    Distinct(KindsOf(ms))
  }

  /** Absorbing keeps the kinds in place and appends a kind only when it is new. */
  lemma AbsorbKinds(ms: seq<IMeasurement>, m: IMeasurement)
    ensures KindsOf(Absorb(ms, m)) == if m.Key() in KindsOf(ms) then KindsOf(ms) else KindsOf(ms) + [m.Key()]
  {
    if m.Key() in KindsOf(ms) {
      forall i | 0 <= i < |ms| ensures KindsOf(AddInto(ms, m))[i] == KindsOf(ms)[i] {
        if ms[i].Key() == m.Key() {
          SameKindsAdd(ms[i], m);
        }
      }
    }
  }

  /** Absorbing measurements into an empty list lists their kinds once each, in first-seen order. */
  lemma {:induction false} AbsorbedKinds(added: seq<IMeasurement>)
    ensures KindsOf(Absorbed([], added)) == Dedup(KindsOf(added))
    ensures UniqueKinds(Absorbed([], added))
    decreases |added|
  {
    if added != [] {
      var n := |added|;
      AbsorbedKinds(added[..n - 1]);
      AbsorbKinds(Absorbed([], added[..n - 1]), added[n - 1]);
      assert KindsOf(added)[..n - 1] == KindsOf(added[..n - 1]);
    }
  }

  /** Absorbing into a list with unique kinds raises exactly the total of the absorbed measurement's kinds. */
  lemma {:induction false} AddIntoTotal(ms: seq<IMeasurement>, m: IMeasurement, k: Option<MeasurementKey>)
    requires UniqueKinds(ms)
    ensures KindTotal(AddInto(ms, m), k) == KindTotal(ms, k) + (if m.Key() == k && m.Key() in KindsOf(ms) then m.Value() else 0.0)
    decreases |ms|
  {
    if ms != [] {
      var n := |ms|;
      var front := ms[..n - 1];
      assert KindsOf(front) == KindsOf(ms)[..n - 1];
      assert AddInto(ms, m)[..n - 1] == AddInto(front, m);
      AddIntoTotal(front, m, k);
      assert m.Key() in KindsOf(ms) <==> m.Key() in KindsOf(front) || ms[n - 1].Key() == m.Key();
      if ms[n - 1].Key() == m.Key() {
        SameKindsAdd(ms[n - 1], m);
        assert m.Key() !in KindsOf(front);
      }
    }
  }

  lemma AbsorbTotal(ms: seq<IMeasurement>, m: IMeasurement, k: Option<MeasurementKey>)
    requires UniqueKinds(ms)
    ensures KindTotal(Absorb(ms, m), k) == KindTotal(ms, k) + (if m.Key() == k then m.Value() else 0.0)
  {
    if m.Key() in KindsOf(ms) {
      AddIntoTotal(ms, m, k);
    } else {
      assert (ms + [m])[..|ms|] == ms;
    }
  }

  /** Absorbing measurements into an empty list sums each kind's values. */
  lemma {:induction false} AbsorbedTotal(added: seq<IMeasurement>, k: Option<MeasurementKey>)
    ensures KindTotal(Absorbed([], added), k) == KindTotal(added, k)
    decreases |added|
  {
    if added != [] {
      var n := |added|;
      AbsorbedTotal(added[..n - 1], k);
      AbsorbedKinds(added[..n - 1]);
      AbsorbTotal(Absorbed([], added[..n - 1]), added[n - 1], k);
    }
  }

  /** Absorbing two lists one after the other is absorbing their concatenation. */
  lemma {:induction false} AbsorbedAppend(ms: seq<IMeasurement>, a: seq<IMeasurement>, b: seq<IMeasurement>)
    ensures Absorbed(ms, a + b) == Absorbed(Absorbed(ms, a), b)
    decreases |b|
  {
    if b == [] {
      assert a + b == a;
    } else {
      assert (a + b)[..|a + b| - 1] == a + b[..|b| - 1];
      AbsorbedAppend(ms, a, b[..|b| - 1]);
    }
  }

  /** Every measurement of every TEM, in TEM order. */
  function AllMeasurements(tems: seq<TimeEntityMeasurements>): seq<IMeasurement>
  {
    if tems == [] then [] else AllMeasurements(tems[..|tems| - 1]) + tems[|tems| - 1].measurements
  }

  /** A cell of the grid as a value: the phase it covers, its TEMs and its summed measurements. */
  datatype CellView = CellView(phaseId: int, firstBeatId: int, lastBeatId: int, tems: seq<TimeEntityMeasurements>, measurements: seq<IMeasurement>)

  class GroupPhaseMeasurement {
    const entityGroup: EntityGroup
    const phase: Phase
    var temList: seq<TimeEntityMeasurements>
    var measurementList: seq<IMeasurement>

    /** The measurement list is the TEMs' measurements absorbed in order. */
    ghost predicate Valid()
      reads this
    {
      measurementList == Absorbed([], AllMeasurements(temList))
    }

    constructor (entityGroup: EntityGroup, phase: Phase)
      ensures this.entityGroup == entityGroup && this.phase == phase
      ensures temList == [] && measurementList == [] && Valid()
    {
      this.entityGroup := entityGroup;
      this.phase := phase;
      temList := [];
      measurementList := [];
    }

    /**
     * addTEM: the TEM is recorded, and each of its measurements is added into
     * the measurement of the same kinds or appended when there is none.
     */
    method AddTEM(tem: TimeEntityMeasurements)
      modifies this
      ensures temList == old(temList) + [tem]
      ensures measurementList == Absorbed(old(measurementList), tem.measurements)
      ensures old(Valid()) ==> Valid()
    {
      temList := temList + [tem];
      var i := 0;
      while i < |tem.measurements|
        invariant 0 <= i <= |tem.measurements| && temList == old(temList) + [tem]
        invariant measurementList == Absorbed(old(measurementList), tem.measurements[..i])
      {
        var newMeasurement := tem.measurements[i];
        measurementList := AddOne(measurementList, newMeasurement);
        assert tem.measurements[..i + 1][..i] == tem.measurements[..i];
        i := i + 1;
      }
      assert tem.measurements[..i] == tem.measurements;
      assert AllMeasurements(temList) == AllMeasurements(old(temList)) + tem.measurements by {
        assert temList[..|temList| - 1] == old(temList);
      }
      AbsorbedAppend([], AllMeasurements(old(temList)), tem.measurements);
    }

    /** containsMeasurementType: the index of the first measurement of both kinds, or -1. */
    method ContainsMeasurementType(mt: MeasurementType, at: AggregationType) returns (r: int)
      ensures r == FirstWithKey(measurementList, MeasurementKey(mt, at))
    {
      var i := 0;
      while i < |measurementList|
        invariant 0 <= i <= |measurementList|
        invariant forall j :: 0 <= j < i ==> !measurementList[j].HasKey(MeasurementKey(mt, at))
      {
        if measurementList[i].Key() == Some(MeasurementKey(mt, at)) {
          return i;
        }
        i := i + 1;
      }
      return -1;
    }

    /** The cell as a value, the phase given by its id and the ids of its two end beats. */
    function View(): (v: CellView)
      requires phase.Valid()
      reads this, phase
      ensures v.tems == temList && v.measurements == measurementList && v.phaseId == phase.phaseId
    {
      CellView(phase.phaseId, phase.FirstPhaseBeat().beatId, phase.LastPhaseBeat().beatId, temList, measurementList)
    }
  }

  /** One round of addTEM's outer loop as the source runs it: a scan over the whole list with a found flag. */
  method AddOne(ms: seq<IMeasurement>, newMeasurement: IMeasurement) returns (r: seq<IMeasurement>)
    ensures r == Absorb(ms, newMeasurement)
  {
    r := ms;
    var found := false;
    var j := 0;
    while j < |r|
      invariant 0 <= j <= |ms| && |r| == |ms|
      invariant forall i :: 0 <= i < j ==> r[i] == AddInto(ms, newMeasurement)[i]
      invariant forall i :: j <= i < |ms| ==> r[i] == ms[i]
      invariant found <==> exists i :: 0 <= i < j && ms[i].Key() == newMeasurement.Key()
    {
      if r[j].Key() == newMeasurement.Key() {
        found := true;
        r := r[j := r[j].AddToValue(newMeasurement.Value())];
      }
      j := j + 1;
    }
    assert r == AddInto(ms, newMeasurement);
    assert found <==> newMeasurement.Key() in KindsOf(ms);
    if !found {
      r := r + [newMeasurement];
    }
  }

  /** A valid cell holds one measurement per kind, in first-seen order, each the sum of the TEMs' values of that kind. */
  lemma CellSums(temList: seq<TimeEntityMeasurements>, k: Option<MeasurementKey>)
    ensures UniqueKinds(Absorbed([], AllMeasurements(temList)))
    ensures KindsOf(Absorbed([], AllMeasurements(temList))) == Dedup(KindsOf(AllMeasurements(temList)))
    ensures KindTotal(Absorbed([], AllMeasurements(temList)), k) == KindTotal(AllMeasurements(temList), k)
  {
    AbsorbedKinds(AllMeasurements(temList));
    AbsorbedTotal(AllMeasurements(temList), k);
  }
}
