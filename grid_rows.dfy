/**
 * The rows of the summarised grid as values: the cells a group keeps, the
 * three-bucket colouring applied kind by kind to every kept cell, and the
 * chart row's phase -> measurement map for the selected kind.
 */
module GridRows {
  import opened Wrappers
  import opened Kinds
  import opened Models
  import opened Lists
  import opened Groups
  import opened Cells
  import opened Colouring

  /**
   * A group with its activity and its kept cells. `life` is the group's life
   * details when the row was built; nothing changes them afterwards.
   */
  datatype GroupMeasurements = GroupMeasurements(entityGroup: EntityGroup, life: LifeDetails, activity: int, cells: seq<CellView>)

  /** The cells a group keeps: those with at least one measurement, in phase order. */
  function Kept(cells: seq<CellView>): seq<CellView>
  {
    if cells == [] then []
    else Kept(cells[..|cells| - 1]) + (if cells[|cells| - 1].measurements != [] then [cells[|cells| - 1]] else [])
  }

  lemma {:induction false} KeptMeaning(cells: seq<CellView>)
    ensures |Kept(cells)| <= |cells|
    ensures forall c :: c in Kept(cells) <==> c in cells && c.measurements != []
    decreases |cells|
  {
    if cells != [] {
      var front := cells[..|cells| - 1];
      KeptMeaning(front);
      assert cells == front + [cells[|cells| - 1]];
    }
  }

  // ----- colouring -----

  /**
   * colorizeGroupMeasurementsOfSpecificType on one cell: the measurement of
   * kind k, if the cell has one and the colour condition holds, gets the
   * colour of its value's bucket; nothing else changes.
   */
  function ColourCell(c: CellView, life: LifeDetails, k: MeasurementKey, lo: real, hi: real): CellView
  {
    var i := FirstWithKey(c.measurements, k);
    if i != -1 && ColourCondition(life, c.firstBeatId, c.lastBeatId) then
      c.(measurements := c.measurements[i := c.measurements[i].SetColor(ValueColor(c.measurements[i].Value(), lo, hi))])
    else c
  }

  function ColourRow(r: GroupMeasurements, k: MeasurementKey, lo: real, hi: real): (r': GroupMeasurements)
    ensures r'.entityGroup == r.entityGroup && r'.life == r.life && r'.activity == r.activity && |r'.cells| == |r.cells|
    ensures forall j :: 0 <= j < |r.cells| ==> r'.cells[j] == ColourCell(r.cells[j], r.life, k, lo, hi)
  {
    r.(cells := seq(|r.cells|, j requires 0 <= j < |r.cells| => ColourCell(r.cells[j], r.life, k, lo, hi)))
  }

  function ColourRows(rows: seq<GroupMeasurements>, k: MeasurementKey, lo: real, hi: real): (r: seq<GroupMeasurements>)
    ensures |r| == |rows| && forall i :: 0 <= i < |rows| ==> r[i] == ColourRow(rows[i], k, lo, hi)
  {
    seq(|rows|, i requires 0 <= i < |rows| => ColourRow(rows[i], k, lo, hi))
  }

  /** colorizeGroupMeasurementsAllTypes: every kind of the list in turn, with that kind's minimum and maximum. */
  function ColourAll(rows: seq<GroupMeasurements>, keys: seq<MeasurementKey>, lo: map<MeasurementKey, real>, hi: map<MeasurementKey, real>): seq<GroupMeasurements>
    requires forall k :: k in keys ==> k in lo && k in hi
  {
    if keys == [] then rows
    else
      var k := keys[|keys| - 1];
      ColourRows(ColourAll(rows, keys[..|keys| - 1], lo, hi), k, lo[k], hi[k])
  }

  /** The same kinds applied to one cell. */
  function ColourCellAll(c: CellView, life: LifeDetails, keys: seq<MeasurementKey>, lo: map<MeasurementKey, real>, hi: map<MeasurementKey, real>): CellView
    requires forall k :: k in keys ==> k in lo && k in hi
  {
    if keys == [] then c
    else
      var k := keys[|keys| - 1];
      ColourCell(ColourCellAll(c, life, keys[..|keys| - 1], lo, hi), life, k, lo[k], hi[k])
  }

  /** Colouring every row kind by kind is colouring each cell kind by kind: rows, groups and activities stay. */
  lemma {:induction false} ColourAllCells(rows: seq<GroupMeasurements>, keys: seq<MeasurementKey>, lo: map<MeasurementKey, real>, hi: map<MeasurementKey, real>)
    requires forall k :: k in keys ==> k in lo && k in hi
    ensures |ColourAll(rows, keys, lo, hi)| == |rows|
    ensures forall i :: 0 <= i < |rows| ==>
              var r := ColourAll(rows, keys, lo, hi)[i];
              r.entityGroup == rows[i].entityGroup && r.life == rows[i].life && r.activity == rows[i].activity && |r.cells| == |rows[i].cells|
              && forall j :: 0 <= j < |rows[i].cells| ==> r.cells[j] == ColourCellAll(rows[i].cells[j], rows[i].life, keys, lo, hi)
    decreases |keys|
  {
    if keys != [] {
      ColourAllCells(rows, keys[..|keys| - 1], lo, hi);
    }
  }

  /** A colour as the cell's measurements see it: the kind, its index and the value stay. */
  lemma ColourCellShape(c: CellView, life: LifeDetails, k: MeasurementKey, lo: real, hi: real)
    ensures var c' := ColourCell(c, life, k, lo, hi);
            c'.phaseId == c.phaseId && c'.firstBeatId == c.firstBeatId && c'.lastBeatId == c.lastBeatId && c'.tems == c.tems
            && |c'.measurements| == |c.measurements| && KindsOf(c'.measurements) == KindsOf(c.measurements)
            && forall j :: 0 <= j < |c.measurements| ==> c'.measurements[j].Key() == c.measurements[j].Key() && c'.measurements[j].Value() == c.measurements[j].Value()
  {
  }

  /** In a cell with one measurement per kind, the measurement whose kind is k is the one FirstWithKey finds. */
  lemma UniqueKindIndex(ms: seq<IMeasurement>, j: int, k: MeasurementKey)
    requires UniqueKinds(ms) && 0 <= j < |ms|
    ensures ms[j].HasKey(k) <==> FirstWithKey(ms, k) == j
  {
  }

  /**
   * Kind by kind over a cell with one measurement per kind, whatever the
   * order of the kinds: a measurement whose kind is listed gets the colour
   * of its value's bucket for that kind when the colour condition holds, and
   * keeps its colour otherwise; kinds and values never change.
   */
  lemma {:induction false} ColourCellAllMeaning(c: CellView, life: LifeDetails, keys: seq<MeasurementKey>, lo: map<MeasurementKey, real>, hi: map<MeasurementKey, real>)
    requires forall k :: k in keys ==> k in lo && k in hi
    requires UniqueKinds(c.measurements)
    ensures var c' := ColourCellAll(c, life, keys, lo, hi);
            c'.phaseId == c.phaseId && c'.firstBeatId == c.firstBeatId && c'.lastBeatId == c.lastBeatId && c'.tems == c.tems
            && |c'.measurements| == |c.measurements| && UniqueKinds(c'.measurements)
            && forall j :: 0 <= j < |c.measurements| ==>
                 var m, m' := c.measurements[j], c'.measurements[j];
                 m'.Key() == m.Key() && m'.Value() == m.Value()
                 && m'.Color() == (if m.Key().Some? && m.Key().value in keys && m.Measured? && ColourCondition(life, c.firstBeatId, c.lastBeatId)
                                   then ValueColor(m.Value(), lo[m.Key().value], hi[m.Key().value]) else m.Color())
    decreases |keys|
  {
    if keys != [] {
      var front := keys[..|keys| - 1];
      var k := keys[|keys| - 1];
      ColourCellAllMeaning(c, life, front, lo, hi);
      var p := ColourCellAll(c, life, front, lo, hi);
      ColourCellShape(p, life, k, lo[k], hi[k]);
      var c' := ColourCell(p, life, k, lo[k], hi[k]);
      forall j | 0 <= j < |c.measurements|
        ensures c'.measurements[j].Color()
                == (if c.measurements[j].Key().Some? && c.measurements[j].Key().value in keys && c.measurements[j].Measured? && ColourCondition(life, c.firstBeatId, c.lastBeatId)
                    then ValueColor(c.measurements[j].Value(), lo[c.measurements[j].Key().value], hi[c.measurements[j].Key().value]) else c.measurements[j].Color())
      {
        var m := c.measurements[j];
        UniqueKindIndex(p.measurements, j, k);
        assert m.Key().Some? && m.Key().value in keys <==> (m.Key().Some? && m.Key().value in front) || m.HasKey(k);
      }
    }
  }

  // ----- the chart row for the selected kind -----

  /** generateChartData's inner loop: each cell holding kind k puts its measurement under its phase id, in cell order. */
  function ChartEntries(cells: seq<CellView>, k: MeasurementKey): map<int, IMeasurement>
  {
    if cells == [] then map[]
    else
      var c := cells[|cells| - 1];
      var i := FirstWithKey(c.measurements, k);
      var m := ChartEntries(cells[..|cells| - 1], k);
      if i != -1 then m[c.phaseId := c.measurements[i]] else m
  }

  /** The number of addMeasurement calls: the cells that hold kind k. */
  function ChartActivity(cells: seq<CellView>, k: MeasurementKey): (n: nat)
    ensures n <= |cells|
  {
    if cells == [] then 0
    else ChartActivity(cells[..|cells| - 1], k) + (if FirstWithKey(cells[|cells| - 1].measurements, k) != -1 then 1 else 0)
  }

  predicate DistinctPhases(cells: seq<CellView>) {
    forall a, b :: 0 <= a < b < |cells| ==> cells[a].phaseId != cells[b].phaseId
  }

  lemma DistinctPhasesFront(cells: seq<CellView>)
    requires DistinctPhases(cells) && cells != []
    ensures DistinctPhases(cells[..|cells| - 1])
  {
    var front := cells[..|cells| - 1];
    forall a, b | 0 <= a < b < |front| ensures front[a].phaseId != front[b].phaseId {
      assert front[a] == cells[a] && front[b] == cells[b];
    }
  }

  /** The chart row maps exactly the phases of the cells holding kind k. */
  lemma {:induction false} ChartEntriesKeys(cells: seq<CellView>, k: MeasurementKey)
    ensures forall p :: p in ChartEntries(cells, k) <==> exists j :: KeyedAt(cells, j, p, k)
    decreases |cells|
  {
    if cells != [] {
      var n := |cells| - 1;
      var front := cells[..n];
      ChartEntriesKeys(front, k);
      var last := FirstWithKey(cells[n].measurements, k) != -1;
      assert ChartEntries(cells, k).Keys == ChartEntries(front, k).Keys + (if last then {cells[n].phaseId} else {});
      forall p ensures p in ChartEntries(cells, k) <==> exists j :: KeyedAt(cells, j, p, k) {
        if last && p == cells[n].phaseId {
          assert KeyedAt(cells, n, p, k);
        }
        if p in ChartEntries(front, k) {
          var j :| KeyedAt(front, j, p, k);
          assert KeyedAt(cells, j, p, k);
        }
        if exists j :: KeyedAt(cells, j, p, k) {
          var j :| KeyedAt(cells, j, p, k);
          if j < n {
            assert KeyedAt(front, j, p, k);
          }
        }
      }
    }
  }

  /** Cell j is phase p's and holds a measurement of kind k. */
  ghost predicate KeyedAt(cells: seq<CellView>, j: int, p: int, k: MeasurementKey)
  {
    0 <= j < |cells| && cells[j].phaseId == p && FirstWithKey(cells[j].measurements, k) != -1
  }

  /** With one cell per phase, each of those phases is mapped to its cell's measurement of kind k. */
  lemma {:induction false} ChartEntriesValues(cells: seq<CellView>, k: MeasurementKey)
    requires DistinctPhases(cells)
    ensures forall j :: 0 <= j < |cells| && FirstWithKey(cells[j].measurements, k) != -1 ==>
              cells[j].phaseId in ChartEntries(cells, k)
              && ChartEntries(cells, k)[cells[j].phaseId] == cells[j].measurements[FirstWithKey(cells[j].measurements, k)]
              && ChartEntries(cells, k)[cells[j].phaseId].HasKey(k)
    decreases |cells|
  {
    if cells != [] {
      var n := |cells| - 1;
      var front := cells[..n];
      DistinctPhasesFront(cells);
      ChartEntriesValues(front, k);
      forall j | 0 <= j < |cells| && FirstWithKey(cells[j].measurements, k) != -1
        ensures cells[j].phaseId in ChartEntries(cells, k) && ChartEntries(cells, k)[cells[j].phaseId] == cells[j].measurements[FirstWithKey(cells[j].measurements, k)]
      {
        if j < n {
          assert front[j] == cells[j];
          assert cells[j].phaseId != cells[n].phaseId;
        }
      }
    }
  }

  /** With one cell per phase, the activity (one per addMeasurement call) is the number of entries. */
  lemma {:induction false} ChartEntriesCount(cells: seq<CellView>, k: MeasurementKey)
    requires DistinctPhases(cells)
    ensures |ChartEntries(cells, k)| == ChartActivity(cells, k)
    decreases |cells|
  {
    if cells != [] {
      var n := |cells| - 1;
      var front := cells[..n];
      DistinctPhasesFront(cells);
      ChartEntriesCount(front, k);
      ChartEntriesKeys(front, k);
      assert cells[n].phaseId !in ChartEntries(front, k);
    }
  }
}
