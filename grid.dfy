/**
 * ClusteringHandler: assembles the summarised grid from the phases and the
 * entity groups. Each (group, phase) cell collects the TEMs of the group's
 * members at the phase's beats and sums them kind by kind; the handler
 * tracks each kind's minimum and maximum over all cells, colours the cells,
 * builds one chart row per group for the selected kind, sorts the rows and
 * writes them out as GPM text.
 */
module Grid {
  import opened Wrappers
  import opened Kinds
  import opened Models
  import opened Lists
  import opened Phases
  import opened Groups
  import opened Cells
  import opened Chart
  import opened Colouring
  import opened Data
  import opened GridRows
  import opened GpmText
  import opened GpmWriter
  import Text

  /** The data handler's entity name -> beat id -> TEM index. */
  type TemIndex = map<string, map<int, TimeEntityMeasurements>>

  // ----- the TEMs a cell collects -----

  /** The TEMs under the given beat keys, in key order, keeping those whose beat belongs to the phase. */
  function TemsAt(m: map<int, TimeEntityMeasurements>, keys: seq<int>, ids: seq<int>): seq<TimeEntityMeasurements>
  {
    if keys == [] then []
    else
      var b := keys[|keys| - 1];
      TemsAt(m, keys[..|keys| - 1], ids) + (if b in m && b in ids then [m[b]] else [])
  }

  lemma {:induction false} TemsAtMembers(m: map<int, TimeEntityMeasurements>, keys: seq<int>, ids: seq<int>, t: TimeEntityMeasurements)
    ensures t in TemsAt(m, keys, ids) <==> exists j :: 0 <= j < |keys| && keys[j] in m && keys[j] in ids && t == m[keys[j]]
    decreases |keys|
  {
    if keys != [] {
      var front := keys[..|keys| - 1];
      TemsAtMembers(m, front, ids, t);
      if t in TemsAt(m, front, ids) {
        var j :| 0 <= j < |front| && front[j] in m && front[j] in ids && t == m[front[j]];
        assert keys[j] == front[j];
      }
      if exists j :: 0 <= j < |keys| && keys[j] in m && keys[j] in ids && t == m[keys[j]] {
        var j :| 0 <= j < |keys| && keys[j] in m && keys[j] in ids && t == m[keys[j]];
        if j < |front| {
          assert front[j] == keys[j];
        }
      }
    }
  }

  /** One member's TEMs in the phase, beats in ascending order. */
  ghost function MemberTems(index: TemIndex, name: string, ids: seq<int>): seq<TimeEntityMeasurements>
  {
    if name in index then TemsAt(index[name], SortedKeys(index[name].Keys), ids) else []
  }

  /** The TEMs a cell collects: member by member, in member order. */
  ghost function CellTems(index: TemIndex, members: seq<Entity>, ids: seq<int>): seq<TimeEntityMeasurements>
  {
    if members == [] then []
    else CellTems(index, members[..|members| - 1], ids) + MemberTems(index, members[|members| - 1].entityName, ids)
  }

  /** The index holds TEM t for the named entity at one of the phase's beats. */
  ghost predicate IndexedIn(index: TemIndex, name: string, ids: seq<int>, t: TimeEntityMeasurements) {
    name in index && exists b :: b in index[name] && b in ids && t == index[name][b]
  }

  lemma MemberTemsMembers(index: TemIndex, name: string, ids: seq<int>, t: TimeEntityMeasurements)
    ensures t in MemberTems(index, name, ids) <==> IndexedIn(index, name, ids, t)
  {
    if name in index {
      var keys := SortedKeys(index[name].Keys);
      SortedKeysMeaning(index[name].Keys);
      TemsAtMembers(index[name], keys, ids, t);
      if exists b :: b in index[name] && b in ids && t == index[name][b] {
        var b :| b in index[name] && b in ids && t == index[name][b];
        assert b in keys;
        var j :| 0 <= j < |keys| && keys[j] == b;
      }
    }
  }

  /**
   * A cell holds exactly the indexed TEMs of the group's members whose beat
   * belongs to the phase.
   */
  lemma {:induction false} CellTemsMembers(index: TemIndex, members: seq<Entity>, ids: seq<int>, t: TimeEntityMeasurements)
    ensures t in CellTems(index, members, ids) <==> exists e :: e in members && IndexedIn(index, e.entityName, ids, t)
    decreases |members|
  {
    if members != [] {
      var front, last := members[..|members| - 1], members[|members| - 1];
      CellTemsMembers(index, front, ids, t);
      MemberTemsMembers(index, last.entityName, ids, t);
      assert members == front + [last];
      if exists e :: e in members && IndexedIn(index, e.entityName, ids, t) {
        var e :| e in members && IndexedIn(index, e.entityName, ids, t);
        assert e in front || e == last;
      }
    }
  }

  // ----- measurements from the index are real measurements -----

  /** Every measurement in the index is a Measurement (none is an EmptyIMeasurement, whose null kinds the handler cannot compare). */
  predicate AllMeasured(index: TemIndex)
  {
    forall name, b, j :: name in index && b in index[name] && 0 <= j < |index[name][b].measurements| ==> index[name][b].measurements[j].Measured?
  }

  predicate MeasuredOnly(ms: seq<IMeasurement>)
  {
    forall j :: 0 <= j < |ms| ==> ms[j].Measured?
  }

  lemma {:induction false} AllMeasurementsMeasured(tems: seq<TimeEntityMeasurements>)
    requires forall i :: 0 <= i < |tems| ==> MeasuredOnly(tems[i].measurements)
    ensures MeasuredOnly(AllMeasurements(tems))
    decreases |tems|
  {
    if tems != [] {
      AllMeasurementsMeasured(tems[..|tems| - 1]);
      var a, b := AllMeasurements(tems[..|tems| - 1]), tems[|tems| - 1].measurements;
      assert forall j :: 0 <= j < |a + b| ==> (a + b)[j] == (if j < |a| then a[j] else b[j - |a|]);
    }
  }

  lemma {:induction false} AbsorbedMeasured(ms: seq<IMeasurement>, added: seq<IMeasurement>)
    requires MeasuredOnly(ms) && MeasuredOnly(added)
    ensures MeasuredOnly(Absorbed(ms, added))
    decreases |added|
  {
    if added != [] {
      AbsorbedMeasured(ms, added[..|added| - 1]);
    }
  }

  predicate TemsMeasured(tems: seq<TimeEntityMeasurements>)
  {
    forall i :: 0 <= i < |tems| ==> MeasuredOnly(tems[i].measurements)
  }

  lemma IndexedMeasured(index: TemIndex, name: string, b: int)
    requires AllMeasured(index) && name in index && b in index[name]
    ensures MeasuredOnly(index[name][b].measurements)
  {
    forall j | 0 <= j < |index[name][b].measurements|
      ensures index[name][b].measurements[j].Measured?
    {
    }
  }

  lemma TemsAtStep(m: map<int, TimeEntityMeasurements>, keys: seq<int>, b: int, ids: seq<int>)
    requires b in m
    ensures TemsAt(m, keys + [b], ids) == TemsAt(m, keys, ids) + (if b in ids then [m[b]] else [])
  {
    assert (keys + [b])[..|keys|] == keys;
  }

  // ----- the minimum and maximum of each kind -----

  /** The maximum map after the measurements are fed in order: a new kind starts at its value, a value at or above the maximum replaces it. */
  function MaxAfter(m0: map<MeasurementKey, real>, ms: seq<IMeasurement>): map<MeasurementKey, real>
  {
    if ms == [] then m0
    else
      var m, x := MaxAfter(m0, ms[..|ms| - 1]), ms[|ms| - 1];
      if x.Key().None? then m
      else if x.Key().value !in m || x.Value() >= m[x.Key().value] then m[x.Key().value := x.Value()]
      else m
  }

  /** The same for the minimum: a value at or below it replaces it. */
  function MinAfter(m0: map<MeasurementKey, real>, ms: seq<IMeasurement>): map<MeasurementKey, real>
  {
    if ms == [] then m0
    else
      var m, x := MinAfter(m0, ms[..|ms| - 1]), ms[|ms| - 1];
      if x.Key().None? then m
      else if x.Key().value !in m || x.Value() <= m[x.Key().value] then m[x.Key().value := x.Value()]
      else m
  }

  lemma {:induction false} MinMaxAppend(m0: map<MeasurementKey, real>, n0: map<MeasurementKey, real>, a: seq<IMeasurement>, b: seq<IMeasurement>)
    ensures MaxAfter(m0, a + b) == MaxAfter(MaxAfter(m0, a), b)
    ensures MinAfter(n0, a + b) == MinAfter(MinAfter(n0, a), b)
    decreases |b|
  {
    if b == [] {
      assert a + b == a;
    } else {
      assert (a + b)[..|a + b| - 1] == a + b[..|b| - 1];
      MinMaxAppend(m0, n0, a, b[..|b| - 1]);
    }
  }

  lemma {:induction false} MinMaxSameKinds(m0: map<MeasurementKey, real>, n0: map<MeasurementKey, real>, ms: seq<IMeasurement>)
    requires m0.Keys == n0.Keys
    ensures MaxAfter(m0, ms).Keys == MinAfter(n0, ms).Keys
    decreases |ms|
  {
    if ms != [] {
      MinMaxSameKinds(m0, n0, ms[..|ms| - 1]);
    }
  }

  /**
   * Fed from empty maps, the maximum map has an entry for exactly the kinds
   * that occur, no value of a kind exceeds it, and some value attains it.
   */
  lemma {:induction false} MaxBounds(ms: seq<IMeasurement>, k: MeasurementKey)
    ensures k in MaxAfter(map[], ms) <==> exists i :: 0 <= i < |ms| && ms[i].HasKey(k)
    ensures k in MaxAfter(map[], ms) ==> forall i :: 0 <= i < |ms| && ms[i].HasKey(k) ==> ms[i].Value() <= MaxAfter(map[], ms)[k]
    ensures k in MaxAfter(map[], ms) ==> exists i :: 0 <= i < |ms| && ms[i].HasKey(k) && ms[i].Value() == MaxAfter(map[], ms)[k]
    decreases |ms|
  {
    if ms != [] {
      var front := ms[..|ms| - 1];
      MaxBounds(front, k);
      assert forall i :: 0 <= i < |front| ==> front[i] == ms[i];
    }
  }

  /** The same for the minimum map. */
  lemma {:induction false} MinBounds(ms: seq<IMeasurement>, k: MeasurementKey)
    ensures k in MinAfter(map[], ms) <==> exists i :: 0 <= i < |ms| && ms[i].HasKey(k)
    ensures k in MinAfter(map[], ms) ==> forall i :: 0 <= i < |ms| && ms[i].HasKey(k) ==> MinAfter(map[], ms)[k] <= ms[i].Value()
    ensures k in MinAfter(map[], ms) ==> exists i :: 0 <= i < |ms| && ms[i].HasKey(k) && ms[i].Value() == MinAfter(map[], ms)[k]
    decreases |ms|
  {
    if ms != [] {
      var front := ms[..|ms| - 1];
      MinBounds(front, k);
      assert forall i :: 0 <= i < |front| ==> front[i] == ms[i];
    }
  }

  // ----- the rows of the grid, as values -----

  /** What a cell needs of a phase: its id, its first and last beat ids and its beat ids. */
  datatype PhaseView = PhaseView(phaseId: int, firstBeatId: int, lastBeatId: int, idList: seq<int>)

  ghost function ViewOf(p: Phase): PhaseView
    requires p.Valid()
    reads p
  {
    PhaseView(p.phaseId, p.components[0].beatId, p.components[|p.components| - 1].beatId, p.idList)
  }

  ghost function Views(ps: seq<Phase>): (r: seq<PhaseView>)
    requires PhasesValid(ps)
    reads ps
    ensures |r| == |ps| && forall j :: 0 <= j < |ps| ==> r[j] == ViewOf(ps[j])
  {
    seq(|ps|, j requires 0 <= j < |ps| && ps[j].Valid() reads ps => ViewOf(ps[j]))
  }

  /** What a row needs of a group: the group itself, its members and its life details. */
  datatype GroupView = GroupView(group: EntityGroup, members: seq<Entity>, life: LifeDetails)

  ghost function GroupViews(gs: seq<EntityGroup>): (r: seq<GroupView>)
    reads gs
    ensures |r| == |gs| && forall i :: 0 <= i < |gs| ==> r[i] == GroupView(gs[i], gs[i].members, gs[i].lifeDetails)
  {
    seq(|gs|, i requires 0 <= i < |gs| reads gs => GroupView(gs[i], gs[i].members, gs[i].lifeDetails))
  }

  /** The cell generateGroupPhaseMeasurement builds for a group's members and a phase. */
  ghost function CellOf(index: TemIndex, members: seq<Entity>, p: PhaseView): CellView
  {
    var tems := CellTems(index, members, p.idList);
    CellView(p.phaseId, p.firstBeatId, p.lastBeatId, tems, Absorbed([], AllMeasurements(tems)))
  }

  /** The group's cell in every phase, in phase order. */
  ghost function CellsOver(index: TemIndex, members: seq<Entity>, ps: seq<PhaseView>): (r: seq<CellView>)
    ensures |r| == |ps|
  {
    if ps == [] then [] else CellsOver(index, members, ps[..|ps| - 1]) + [CellOf(index, members, ps[|ps| - 1])]
  }

  /** A group's row before colouring: its non-empty cells, and one unit of activity for each. */
  ghost function RowOf(index: TemIndex, g: GroupView, ps: seq<PhaseView>): GroupMeasurements
  {
    var cells := Kept(CellsOver(index, g.members, ps));
    GroupMeasurements(g.group, g.life, |cells|, cells)
  }

  ghost function RowsOf(index: TemIndex, gs: seq<GroupView>, ps: seq<PhaseView>): (r: seq<GroupMeasurements>)
    ensures |r| == |gs|
  {
    if gs == [] then [] else RowsOf(index, gs[..|gs| - 1], ps) + [RowOf(index, gs[|gs| - 1], ps)]
  }

  /** The measurements of the cells, cell after cell: what the min/max maps are fed with. */
  function CellMeasurements(cells: seq<CellView>): seq<IMeasurement>
  {
    if cells == [] then [] else CellMeasurements(cells[..|cells| - 1]) + cells[|cells| - 1].measurements
  }

  function RowsMeasurements(rows: seq<GroupMeasurements>): seq<IMeasurement>
  {
    if rows == [] then [] else RowsMeasurements(rows[..|rows| - 1]) + CellMeasurements(rows[|rows| - 1].cells)
  }

  /** One more phase adds its cell to the kept ones exactly when the cell has a measurement. */
  lemma CellStep(index: TemIndex, members: seq<Entity>, ps: seq<PhaseView>, j: int)
    requires 0 <= j < |ps|
    ensures var c := CellOf(index, members, ps[j]);
            Kept(CellsOver(index, members, ps[..j + 1])) == Kept(CellsOver(index, members, ps[..j])) + (if c.measurements != [] then [c] else [])
  {
    var front := CellsOver(index, members, ps[..j]);
    var c := CellOf(index, members, ps[j]);
    assert ps[..j + 1][..j] == ps[..j];
    assert CellsOver(index, members, ps[..j + 1]) == front + [c];
    assert (front + [c])[..|front|] == front;
  }

  lemma ConcatAssoc<T>(a: seq<T>, b: seq<T>, c: seq<T>)
    ensures a + (b + c) == (a + b) + c
    ensures a + (b + []) == a + b
  {
  }

  lemma CellMeasurementsAppend(cells: seq<CellView>, c: CellView)
    ensures CellMeasurements(cells + [c]) == CellMeasurements(cells) + c.measurements
  {
    assert (cells + [c])[..|cells|] == cells;
  }

  lemma RowsMeasurementsAppend(rows: seq<GroupMeasurements>, r: GroupMeasurements)
    ensures RowsMeasurements(rows + [r]) == RowsMeasurements(rows) + CellMeasurements(r.cells)
  {
    assert (rows + [r])[..|rows|] == rows;
  }

  lemma RowsStep(index: TemIndex, gs: seq<GroupView>, ps: seq<PhaseView>, i: int)
    requires 0 <= i < |gs|
    ensures RowsOf(index, gs[..i + 1], ps) == RowsOf(index, gs[..i], ps) + [RowOf(index, gs[i], ps)]
  {
    assert gs[..i + 1][..i] == gs[..i];
  }

  /** colorizeGroupMeasurementsOfSpecificType on one row: each cell's measurement of kind k, when the colour condition holds. */
  method ColouredRow(r: GroupMeasurements, k: MeasurementKey, lo: real, hi: real) returns (r': GroupMeasurements)
    ensures r' == ColourRow(r, k, lo, hi)
  {
    var cells := r.cells;
    var j := 0;
    while j < |cells|
      invariant 0 <= j <= |cells| == |r.cells|
      invariant forall m :: 0 <= m < j ==> cells[m] == ColourCell(r.cells[m], r.life, k, lo, hi)
      invariant forall m :: j <= m < |cells| ==> cells[m] == r.cells[m]
    {
      var c := cells[j];
      var idx := FirstWithKey(c.measurements, k);
      if idx != -1 {
        var value := c.measurements[idx].Value();
        if ColourCondition(r.life, c.firstBeatId, c.lastBeatId) {
          cells := cells[j := c.(measurements := c.measurements[idx := c.measurements[idx].SetColor(ValueColor(value, lo, hi))])];
        }
      }
      j := j + 1;
    }
    r' := r.(cells := cells);
  }

  // ----- the chart rows -----

  /** A chart row built from a grid row for kind k. */
  ghost predicate ChartRowOf(row: ChartGroupPhaseMeasurement, gm: GroupMeasurements, k: MeasurementKey)
    reads row
  {
    row.Valid() && row.entityGroup == gm.entityGroup
    && row.measurementToPhaseMap == ChartEntries(gm.cells, k) && row.activity == ChartActivity(gm.cells, k)
  }

  /** The inner loop of generateChartData: a new row receives the measurement of kind k of each cell that has one. */
  method NewChartRow(gm: GroupMeasurements, k: MeasurementKey) returns (row: ChartGroupPhaseMeasurement)
    ensures fresh(row) && ChartRowOf(row, gm, k)
  {
    row := new ChartGroupPhaseMeasurement(gm.entityGroup);
    var j := 0;
    while j < |gm.cells|
      invariant 0 <= j <= |gm.cells|
      invariant fresh(row) && row.Valid() && row.entityGroup == gm.entityGroup
      invariant row.measurementToPhaseMap == ChartEntries(gm.cells[..j], k) && row.activity == ChartActivity(gm.cells[..j], k)
      modifies row
    {
      assert gm.cells[..j + 1][..j] == gm.cells[..j];
      var c := gm.cells[j];
      var idx := FirstWithKey(c.measurements, k);
      if idx != -1 {
        row.AddMeasurement(c.phaseId, c.measurements[idx]);
      }
      j := j + 1;
    }
    assert gm.cells[..j] == gm.cells;
  }

  /** The value the comparator compares for a chart row: a life detail of its group, or its activity. */
  function RowKey(t: SortingType, r: ChartGroupPhaseMeasurement): int
    reads r.entityGroup, r
  {
    SortKey(t, r.entityGroup.lifeDetails, r.activity)
  }

  /** The chart rows whose compared value is k, in their order in the list. */
  ghost function RowsWithKey(t: SortingType, s: seq<ChartGroupPhaseMeasurement>, k: int): seq<ChartGroupPhaseMeasurement>
    reads set r | r in s, set r | r in s :: r.entityGroup
    decreases |s|
  {
    if s == [] then [] else (if RowKey(t, s[0]) == k then [s[0]] else []) + RowsWithKey(t, s[1..], k)
  }

  lemma {:induction false} RowsWithKeyAgree(t: SortingType, s: seq<ChartGroupPhaseMeasurement>, key: ChartGroupPhaseMeasurement -> int, k: int)
    requires forall r :: r in s ==> key(r) == RowKey(t, r)
    ensures RowsWithKey(t, s, k) == WithKey(s, key, k)
    decreases |s|
  {
    if s != [] {
      assert s[0] in s;
      assert forall r :: r in s[1..] ==> r in s;
      RowsWithKeyAgree(t, s[1..], key, k);
    }
  }

  /**
   * Sorting rows by a key that agrees with the compared value on every row
   * orders them by that value and keeps the rows of each value in their
   * order.
   */
  lemma SortedByRowKey(t: SortingType, before: seq<ChartGroupPhaseMeasurement>, key: ChartGroupPhaseMeasurement -> int)
    requires forall r :: r in before ==> key(r) == RowKey(t, r)
    ensures var after := SortBy(before, key, Ascending(t));
      (forall i, j :: 0 <= i < j < |after| ==> InOrder(RowKey(t, after[i]), RowKey(t, after[j]), Ascending(t)))
      && forall k :: RowsWithKey(t, after, k) == RowsWithKey(t, before, k)
  {
    var after := SortBy(before, key, Ascending(t));
    forall r | r in after ensures key(r) == RowKey(t, r) {
      assert r in multiset(after);
      assert r in before;
    }
    forall i, j | 0 <= i < j < |after| ensures InOrder(RowKey(t, after[i]), RowKey(t, after[j]), Ascending(t)) {
      assert after[i] in after && after[j] in after;
    }
    forall k ensures RowsWithKey(t, after, k) == RowsWithKey(t, before, k) {
      RowsWithKeyAgree(t, before, key, k);
      RowsWithKeyAgree(t, after, key, k);
      SortByStable(before, key, Ascending(t), k);
    }
  }

  // ----- loading phases and groups -----

  /** loadPhases for one triple: the beats at timeline positions first..last, or just first when last < first. */
  method NewPhase(timeline: seq<Beat>, id: int, first: int, last: int) returns (p: Phase)
    requires 0 <= first && Max(first, last) < |timeline|
    ensures fresh(p) && p.Valid() && p.phaseId == id && p.components == timeline[first..Max(first, last) + 1]
  {
    p := new Phase(id, timeline[first]);
    var b := first + 1;
    while b <= last
      invariant first + 1 <= b <= Max(first, last) + 1
      invariant fresh(p) && p.Valid() && p.phaseId == id && p.components == timeline[first..b]
      modifies p
    {
      assert timeline[first..b + 1] == timeline[first..b] + [timeline[b]];
      p.AddBeat(timeline[b]);
      b := b + 1;
    }
  }

  /** A phase loadPhases built from (id, first, last): that id, and the beats at timeline positions first..last (just first when last < first). */
  ghost predicate LoadedPhase(p: Phase, timeline: seq<Beat>, t: (int, int, int))
    reads p
  {
    0 <= t.1 && Max(t.1, t.2) < |timeline|
    && p.Valid() && p.phaseId == t.0 && p.components == timeline[t.1..Max(t.1, t.2) + 1]
  }

  /** The entities getEntityByName returns for the names, each the first of the population with that name. */
  function Resolve(population: seq<Entity>, names: seq<string>): (r: seq<Entity>)
    requires forall n :: n in names ==> FirstNamed(population, n) != -1
    ensures |r| == |names| && forall k :: 0 <= k < |names| ==> r[k] == population[FirstNamed(population, names[k])]
  {
    seq(|names|, k requires 0 <= k < |names| => population[FirstNamed(population, names[k])])
  }

  /** loadEntityGroup for one key: a group of the first name's entity, then each further name's entity added. */
  /** A group loadEntityGroup built: that id, and the entities getEntityByName gives for the names, in order. */
  ghost predicate LoadedGroup(g: EntityGroup, population: seq<Entity>, id: int, names: seq<string>)
    reads g
  {
    (forall n :: n in names ==> FirstNamed(population, n) != -1)
    && g.Valid() && g.entityGroupId == id && g.members == Resolve(population, names) && g.names == names
  }

  method NewGroup(population: seq<Entity>, id: int, names: seq<string>) returns (g: EntityGroup)
    requires |names| >= 1 && forall n :: n in names ==> FirstNamed(population, n) != -1
    ensures fresh(g) && LoadedGroup(g, population, id, names)
  {
    var members := Resolve(population, names);
    g := new EntityGroup(id, members[0]);
    var i := 1;
    while i < |names|
      invariant 1 <= i <= |names|
      invariant fresh(g) && g.Valid() && g.entityGroupId == id && g.members == members[..i]
      modifies g
    {
      PrefixStep(members, i);
      g.AddEntityInGroup(members[i]);
      i := i + 1;
    }
    assert members[..i] == members;
    assert g.names == names by {
      forall k | 0 <= k < |names| ensures g.names[k] == names[k] {
        assert g.names[k] == members[k].entityName;
      }
    }
  }

  /** The aggregations offered for a file type, the default first. */
  function AggregationsFor(t: FileType): (r: seq<AggregationType>)
    ensures |r| >= 1
  {
    match t
    case SCHEMA_EVO => [SUM_OF_ALL, SUM_OF_INSERTIONS, SUM_OF_DELETIONS, SUM_OF_UPDATES,
                        SUM_OF_INSERTIONS_AND_DELETIONS, SUM_OF_INSERTIONS_AND_UPDATES, SUM_OF_DELETIONS_AND_UPDATES]
    case CSV => [NO_AGGREGATION]
    case TSV => [NO_AGGREGATION]
    case TEM_GPM => [NO_AGGREGATION]
  }

  /** The handler's default aggregation is the one the TEM export writes, and it is among those offered. */
  lemma DefaultAggregationAgrees(t: FileType)
    ensures AggregationsFor(t)[0] == ExportAggregation(Some(t))
    ensures forall a :: a in AggregationsFor(t) ==> (t == SCHEMA_EVO <==> a != NO_AGGREGATION)
  {
  }

  class ClusteringHandler {
    const dataHandler: DataHandler
    var phases: seq<Phase>
    var entityGroups: seq<EntityGroup>
    var groupMeasurementsList: seq<GroupMeasurements>
    var maxMeasurementMap: map<MeasurementKey, real>
    var minMeasurementMap: map<MeasurementKey, real>
    var availableMeasurementTypesList: seq<MeasurementType>
    var availableAggregationTypesList: seq<AggregationType>
    var measurementType: MeasurementType
    var aggregationType: AggregationType
    var chartData: seq<ChartGroupPhaseMeasurement>
    /** Every cell measurement that has gone through updateMinMaxGroupMeasurementValues, in order. */
    ghost var seenMeasurements: seq<IMeasurement>
    /** The kinds in the order colorizeGroupMeasurementsAllTypes took them from the maximum map. */
    ghost var colourOrder: seq<MeasurementKey>

    /** The min/max maps are those of every cell measurement seen so far (they are never reset). */
    ghost predicate Bounds()
      reads this
    {
      maxMeasurementMap == MaxAfter(map[], seenMeasurements) && minMeasurementMap == MinAfter(map[], seenMeasurements)
    }

    /** The phases are well formed, the TEM index holds measured kinds only, and the two maps know the same kinds. */
    ghost predicate Ready()
      reads this, dataHandler, phases
    {
      PhasesValid(phases) && AllMeasured(dataHandler.entityNameToTEMMap) && maxMeasurementMap.Keys == minMeasurementMap.Keys
    }

    /** The fields the grid computation leaves alone. */
    function Untouched(): (seq<Phase>, seq<EntityGroup>, seq<GroupMeasurements>, seq<ChartGroupPhaseMeasurement>,
                           MeasurementType, AggregationType, seq<MeasurementType>, seq<AggregationType>)
      reads this
    {
      (phases, entityGroups, groupMeasurementsList, chartData,
       measurementType, aggregationType, availableMeasurementTypesList, availableAggregationTypesList)
    }

    /** The constructor followed by setDataHandler, which picks the kinds for the data's file type. */
    constructor (dataHandler: DataHandler)
      requires dataHandler.fileType.Some?
      ensures this.dataHandler == dataHandler
      ensures phases == [] && entityGroups == [] && groupMeasurementsList == [] && chartData == []
      ensures maxMeasurementMap == map[] && minMeasurementMap == map[] && seenMeasurements == [] && Bounds()
      ensures availableMeasurementTypesList == [RAW_VALUE, DELTA_VALUE] && measurementType == RAW_VALUE
      ensures availableAggregationTypesList == AggregationsFor(dataHandler.fileType.value)
      ensures aggregationType == availableAggregationTypesList[0]
    {
      this.dataHandler := dataHandler;
      phases := [];
      entityGroups := [];
      groupMeasurementsList := [];
      maxMeasurementMap := map[];
      minMeasurementMap := map[];
      seenMeasurements := [];
      colourOrder := [];
      chartData := [];
      availableMeasurementTypesList := [];
      availableAggregationTypesList := [];
      measurementType := RAW_VALUE;
      aggregationType := NO_AGGREGATION;
      new;
      InitializeMeasurementTypes(dataHandler.fileType.value);
    }

    /** initializeMeasurementTypes: RAW and DELTA, RAW selected; SUM_OF_ALL and its six parts for schema evolution, NO_AGGREGATION otherwise. */
    method InitializeMeasurementTypes(t: FileType)
      modifies this
      ensures availableMeasurementTypesList == [RAW_VALUE, DELTA_VALUE] && measurementType == RAW_VALUE
      ensures availableAggregationTypesList == AggregationsFor(t) && aggregationType == AggregationsFor(t)[0]
      ensures phases == old(phases) && entityGroups == old(entityGroups) && groupMeasurementsList == old(groupMeasurementsList)
      ensures maxMeasurementMap == old(maxMeasurementMap) && minMeasurementMap == old(minMeasurementMap)
      ensures seenMeasurements == old(seenMeasurements) && chartData == old(chartData)
    {
      availableMeasurementTypesList := [RAW_VALUE, DELTA_VALUE];
      measurementType := RAW_VALUE;
      match t {
        case SCHEMA_EVO =>
          aggregationType := SUM_OF_ALL;
          availableAggregationTypesList := [SUM_OF_ALL, SUM_OF_INSERTIONS, SUM_OF_DELETIONS, SUM_OF_UPDATES,
                                            SUM_OF_INSERTIONS_AND_DELETIONS, SUM_OF_INSERTIONS_AND_UPDATES, SUM_OF_DELETIONS_AND_UPDATES];
        case CSV =>
          aggregationType := NO_AGGREGATION;
          availableAggregationTypesList := [NO_AGGREGATION];
        case TSV =>
          aggregationType := NO_AGGREGATION;
          availableAggregationTypesList := [NO_AGGREGATION];
        case TEM_GPM =>
          aggregationType := NO_AGGREGATION;
          availableAggregationTypesList := [NO_AGGREGATION];
      }
    }

    /**
     * updateMinMaxGroupMeasurementValues: each measurement of the cell is fed
     * into the two maps in list order.
     */
    method UpdateMinMax(ms: seq<IMeasurement>)
      requires MeasuredOnly(ms)
      requires maxMeasurementMap.Keys == minMeasurementMap.Keys
      modifies this
      ensures maxMeasurementMap == MaxAfter(old(maxMeasurementMap), ms) && minMeasurementMap == MinAfter(old(minMeasurementMap), ms)
      ensures maxMeasurementMap.Keys == minMeasurementMap.Keys
      ensures seenMeasurements == old(seenMeasurements) + ms
      ensures Untouched() == old(Untouched())
    {
      var maxMap, minMap := maxMeasurementMap, minMeasurementMap;
      var i := 0;
      while i < |ms|
        invariant 0 <= i <= |ms|
        invariant maxMap == MaxAfter(maxMeasurementMap, ms[..i]) && minMap == MinAfter(minMeasurementMap, ms[..i])
        invariant maxMap.Keys == minMap.Keys
        modifies {}
      {
        assert ms[..i + 1][..i] == ms[..i];
        var k, v := ms[i].Key().value, ms[i].Value();
        MinMaxSameKinds(maxMeasurementMap, minMeasurementMap, ms[..i + 1]);
        if k !in maxMap {
          maxMap := maxMap[k := v];
          minMap := minMap[k := v];
        } else {
          if v >= maxMap[k] {
            maxMap := maxMap[k := v];
          }
          if v <= minMap[k] {
            minMap := minMap[k := v];
          }
        }
        i := i + 1;
      }
      assert ms[..i] == ms;
      maxMeasurementMap, minMeasurementMap := maxMap, minMap;
      seenMeasurements := seenMeasurements + ms;
    }

    /**
     * generateGroupPhaseMeasurement: a new cell receives, member by member, the
     * member's TEMs at the phase's beats; then the cell's measurements are fed
     * into the min/max maps.
     */
    method GenerateGroupPhaseMeasurement(group: EntityGroup, phase: Phase) returns (gpm: GroupPhaseMeasurement)
      requires phase.Valid() && AllMeasured(dataHandler.entityNameToTEMMap)
      requires maxMeasurementMap.Keys == minMeasurementMap.Keys
      modifies this
      ensures fresh(gpm) && gpm.entityGroup == group && gpm.phase == phase && gpm.Valid()
      ensures gpm.temList == CellTems(dataHandler.entityNameToTEMMap, group.members, phase.idList)
      ensures MeasuredOnly(gpm.measurementList)
      ensures maxMeasurementMap == MaxAfter(old(maxMeasurementMap), gpm.measurementList)
      ensures minMeasurementMap == MinAfter(old(minMeasurementMap), gpm.measurementList)
      ensures maxMeasurementMap.Keys == minMeasurementMap.Keys
      ensures seenMeasurements == old(seenMeasurements) + gpm.measurementList
      ensures chartData == old(chartData) && measurementType == old(measurementType) && aggregationType == old(aggregationType)
      ensures Untouched() == old(Untouched())
    {
      gpm := new GroupPhaseMeasurement(group, phase);
      AddGroupTems(gpm, group.members, phase);
      AllMeasurementsMeasured(gpm.temList);
      AbsorbedMeasured([], AllMeasurements(gpm.temList));
      UpdateMinMax(gpm.measurementList);
    }

    /** The outer loop of generateGroupPhaseMeasurement: member by member, each member's TEMs in the phase. */
    method AddGroupTems(gpm: GroupPhaseMeasurement, members: seq<Entity>, phase: Phase)
      requires phase.Valid() && gpm.Valid() && gpm.temList == [] && AllMeasured(dataHandler.entityNameToTEMMap)
      modifies gpm
      ensures gpm.Valid() && TemsMeasured(gpm.temList)
      ensures gpm.temList == CellTems(dataHandler.entityNameToTEMMap, members, phase.idList)
    {
      var i := 0;
      while i < |members|
        invariant 0 <= i <= |members|
        invariant gpm.Valid() && TemsMeasured(gpm.temList)
        invariant gpm.temList == CellTems(dataHandler.entityNameToTEMMap, members[..i], phase.idList)
      {
        assert members[..i + 1][..i] == members[..i];
        AddMemberTems(gpm, members[i].entityName, phase);
        i := i + 1;
      }
      assert members[..i] == members;
    }

    /** The inner loop of generateGroupPhaseMeasurement: one member's TEMs, beat keys in ascending order, those in the phase added. */
    method AddMemberTems(gpm: GroupPhaseMeasurement, name: string, phase: Phase)
      requires phase.Valid() && gpm.Valid() && AllMeasured(dataHandler.entityNameToTEMMap)
      requires TemsMeasured(gpm.temList)
      modifies gpm
      ensures gpm.Valid()
      ensures gpm.temList == old(gpm.temList) + MemberTems(dataHandler.entityNameToTEMMap, name, phase.idList)
      ensures TemsMeasured(gpm.temList)
    {
      var index := dataHandler.entityNameToTEMMap;
      if name in index {
        var m := index[name];
        var keys := AscendingKeys(m.Keys);
        SortedKeysIn(m.Keys);
        var i := 0;
        while i < |keys|
          invariant 0 <= i <= |keys|
          invariant gpm.Valid() && TemsMeasured(gpm.temList)
          invariant gpm.temList == old(gpm.temList) + TemsAt(m, keys[..i], phase.idList)
        {
          var beatId := keys[i];
          TemsAtStep(m, keys[..i], beatId, phase.idList);
          IndexedMeasured(index, name, beatId);
          AddIfInPhase(gpm, beatId, m[beatId], phase);
          PrefixStep(keys, i);
          i := i + 1;
        }
        assert keys[..i] == keys;
      }
    }

    /** The body of the beat loop: the TEM is added when the phase holds its beat. */
    method AddIfInPhase(gpm: GroupPhaseMeasurement, beatId: int, tem: TimeEntityMeasurements, phase: Phase)
      requires phase.Valid() && gpm.Valid() && TemsMeasured(gpm.temList) && MeasuredOnly(tem.measurements)
      modifies gpm
      ensures gpm.Valid() && TemsMeasured(gpm.temList)
      ensures gpm.temList == old(gpm.temList) + (if beatId in phase.idList then [tem] else [])
    {
      if phase.ContainsBeat(beatId) {
        gpm.AddTEM(tem);
        assert gpm.temList[|gpm.temList| - 1] == tem;
      }
    }

    /** The phase loop's body: the cell of the group in one phase, its measurements fed into the min/max maps. */
    method NextCell(g: EntityGroup, p: Phase, ghost vs: seq<PhaseView>, ghost gvs: seq<GroupView>) returns (c: CellView)
      requires Ready() && p.Valid() && vs == Views(phases) && gvs == GroupViews(entityGroups)
      modifies this
      ensures Ready() && vs == Views(phases) && gvs == GroupViews(entityGroups)
      ensures c == CellOf(dataHandler.entityNameToTEMMap, g.members, ViewOf(p))
      ensures maxMeasurementMap == MaxAfter(old(maxMeasurementMap), c.measurements)
      ensures minMeasurementMap == MinAfter(old(minMeasurementMap), c.measurements)
      ensures seenMeasurements == old(seenMeasurements) + c.measurements
      ensures chartData == old(chartData) && measurementType == old(measurementType) && aggregationType == old(aggregationType)
      ensures Untouched() == old(Untouched())
    {
      var gpm := GenerateGroupPhaseMeasurement(g, p);
      c := gpm.View();
    }

    /** One turn of the phase loop: phase j's cell is generated, and kept and counted when it has a measurement. */
    method PhaseStep(g: EntityGroup, j: int, cells: seq<CellView>, activity: int, ghost vs: seq<PhaseView>,
                     ghost max0: map<MeasurementKey, real>, ghost min0: map<MeasurementKey, real>, ghost seen0: seq<IMeasurement>,
                     ghost gvs: seq<GroupView>)
      returns (cells': seq<CellView>, activity': int)
      requires Ready() && 0 <= j < |phases| && vs == Views(phases) && gvs == GroupViews(entityGroups)
      requires cells == Kept(CellsOver(dataHandler.entityNameToTEMMap, g.members, vs[..j])) && activity == |cells|
      requires maxMeasurementMap == MaxAfter(max0, CellMeasurements(cells))
      requires minMeasurementMap == MinAfter(min0, CellMeasurements(cells))
      requires seenMeasurements == seen0 + CellMeasurements(cells)
      modifies this
      ensures Ready() && vs == Views(phases) && gvs == GroupViews(entityGroups)
      ensures cells' == Kept(CellsOver(dataHandler.entityNameToTEMMap, g.members, vs[..j + 1])) && activity' == |cells'|
      ensures maxMeasurementMap == MaxAfter(max0, CellMeasurements(cells'))
      ensures minMeasurementMap == MinAfter(min0, CellMeasurements(cells'))
      ensures seenMeasurements == seen0 + CellMeasurements(cells')
      ensures Untouched() == old(Untouched())
    {
      ghost var index := dataHandler.entityNameToTEMMap;
      ghost var before := CellMeasurements(cells);
      var c := NextCell(g, phases[j], vs, gvs);
      CellStep(index, g.members, vs, j);
      activity' := activity;
      if |c.measurements| > 0 {
        activity' := activity + 1;
      }
      if c.measurements != [] {
        CellMeasurementsAppend(cells, c);
        cells' := cells + [c];
        MinMaxAppend(max0, min0, before, c.measurements);
        ConcatAssoc(seen0, before, c.measurements);
      } else {
        cells' := cells;
        ConcatAssoc(seen0, before, []);
      }
    }

    /**
     * The group loop of generateGroupMeasurements for one group: a cell per
     * phase, kept when it has a measurement, and one unit of activity for
     * each kept cell.
     */
    method GroupRow(g: EntityGroup, ghost vs: seq<PhaseView>, ghost gvs: seq<GroupView>) returns (row: GroupMeasurements)
      requires Ready() && vs == Views(phases) && gvs == GroupViews(entityGroups)
      modifies this
      ensures Ready() && vs == Views(phases) && gvs == GroupViews(entityGroups)
      ensures row == RowOf(dataHandler.entityNameToTEMMap, GroupView(g, g.members, g.lifeDetails), vs)
      ensures maxMeasurementMap == MaxAfter(old(maxMeasurementMap), CellMeasurements(row.cells))
      ensures minMeasurementMap == MinAfter(old(minMeasurementMap), CellMeasurements(row.cells))
      ensures seenMeasurements == old(seenMeasurements) + CellMeasurements(row.cells)
      ensures Untouched() == old(Untouched())
    {
      ghost var index := dataHandler.entityNameToTEMMap;
      ghost var max0, min0, seen0 := maxMeasurementMap, minMeasurementMap, seenMeasurements;
      var activity := 0;
      var cells: seq<CellView> := [];
      var j := 0;
      while j < |phases|
        invariant 0 <= j <= |phases|
        invariant Ready() && vs == Views(phases) && gvs == GroupViews(entityGroups)
        invariant Untouched() == old(Untouched())
        invariant cells == Kept(CellsOver(index, g.members, vs[..j])) && activity == |cells|
        invariant maxMeasurementMap == MaxAfter(max0, CellMeasurements(cells))
        invariant minMeasurementMap == MinAfter(min0, CellMeasurements(cells))
        invariant seenMeasurements == seen0 + CellMeasurements(cells)
      {
        cells, activity := PhaseStep(g, j, cells, activity, vs, max0, min0, seen0, gvs);
        j := j + 1;
      }
      assert vs[..j] == vs;
      row := GroupMeasurements(g, g.lifeDetails, activity, cells);
    }

    /** One turn of the group loop: group i's row is built and appended to the rows so far. */
    method GroupStep(i: int, rows: seq<GroupMeasurements>, ghost vs: seq<PhaseView>, ghost gvs: seq<GroupView>, ghost seen0: seq<IMeasurement>)
      returns (rows': seq<GroupMeasurements>)
      requires Ready() && Bounds() && 0 <= i < |entityGroups|
      requires vs == Views(phases) && gvs == GroupViews(entityGroups)
      requires rows == RowsOf(dataHandler.entityNameToTEMMap, gvs[..i], vs)
      requires seenMeasurements == seen0 + RowsMeasurements(rows)
      modifies this
      ensures Ready() && Bounds() && vs == Views(phases) && gvs == GroupViews(entityGroups)
      ensures rows' == RowsOf(dataHandler.entityNameToTEMMap, gvs[..i + 1], vs)
      ensures seenMeasurements == seen0 + RowsMeasurements(rows')
      ensures Untouched() == old(Untouched())
    {
      ghost var index := dataHandler.entityNameToTEMMap;
      ghost var seen := seenMeasurements;
      var row := GroupRow(entityGroups[i], vs, gvs);
      rows' := rows + [row];
      MinMaxAppend(map[], map[], seen, CellMeasurements(row.cells));
      RowsStep(index, gvs, vs, i);
      RowsMeasurementsAppend(rows, row);
      ConcatAssoc(seen0, RowsMeasurements(rows), CellMeasurements(row.cells));
    }

    /**
     * generateGroupMeasurements: a row per entity group, in list order, then
     * every kind's colouring. The rows are those of the values, coloured kind
     * by kind, and the min/max maps take in every cell's measurements.
     */
    method GenerateGroupMeasurements()
      requires Ready() && Bounds()
      modifies this
      ensures Ready() && Bounds()
      ensures seenMeasurements == old(seenMeasurements) + RowsMeasurements(old(RowsOf(dataHandler.entityNameToTEMMap, GroupViews(entityGroups), Views(phases))))
      ensures forall k :: k in colourOrder <==> k in maxMeasurementMap
      ensures groupMeasurementsList == ColourAll(old(RowsOf(dataHandler.entityNameToTEMMap, GroupViews(entityGroups), Views(phases))), colourOrder, minMeasurementMap, maxMeasurementMap)
      ensures phases == old(phases) && entityGroups == old(entityGroups)
      ensures chartData == old(chartData) && measurementType == old(measurementType) && aggregationType == old(aggregationType)
    {
      var rows := GroupRows();
      groupMeasurementsList := rows;
      ColouriseAllTypes();
    }

    /** The group loop of generateGroupMeasurements: a row per entity group, in list order. */
    method GroupRows() returns (rows: seq<GroupMeasurements>)
      requires Ready() && Bounds()
      modifies this
      ensures Ready() && Bounds() && Untouched() == old(Untouched())
      ensures rows == old(RowsOf(dataHandler.entityNameToTEMMap, GroupViews(entityGroups), Views(phases)))
      ensures seenMeasurements == old(seenMeasurements) + RowsMeasurements(rows)
    {
      ghost var vs, gvs := Views(phases), GroupViews(entityGroups);
      rows := [];
      var i := 0;
      while i < |entityGroups|
        invariant 0 <= i <= |entityGroups|
        invariant Ready() && Bounds() && vs == Views(phases) && gvs == GroupViews(entityGroups)
        invariant Untouched() == old(Untouched())
        invariant rows == RowsOf(dataHandler.entityNameToTEMMap, gvs[..i], vs)
        invariant seenMeasurements == old(seenMeasurements) + RowsMeasurements(rows)
      {
        rows := GroupStep(i, rows, vs, gvs, old(seenMeasurements));
        i := i + 1;
      }
      assert gvs[..i] == gvs;
    }

    /** colorizeGroupMeasurementsAllTypes: every kind of the maximum map once, in the map's order. */
    method ColouriseAllTypes()
      requires maxMeasurementMap.Keys == minMeasurementMap.Keys
      modifies this
      ensures maxMeasurementMap == old(maxMeasurementMap) && minMeasurementMap == old(minMeasurementMap) && seenMeasurements == old(seenMeasurements)
      ensures forall k :: k in colourOrder <==> k in maxMeasurementMap
      ensures groupMeasurementsList == ColourAll(old(groupMeasurementsList), colourOrder, minMeasurementMap, maxMeasurementMap)
      ensures phases == old(phases) && entityGroups == old(entityGroups)
      ensures chartData == old(chartData) && measurementType == old(measurementType) && aggregationType == old(aggregationType)
    {
      var remaining := maxMeasurementMap.Keys;
      colourOrder := [];
      while remaining != {}
        invariant maxMeasurementMap == old(maxMeasurementMap) && minMeasurementMap == old(minMeasurementMap) && seenMeasurements == old(seenMeasurements)
        invariant remaining <= maxMeasurementMap.Keys
        invariant forall k :: k in colourOrder <==> k in maxMeasurementMap && k !in remaining
        invariant groupMeasurementsList == ColourAll(old(groupMeasurementsList), colourOrder, minMeasurementMap, maxMeasurementMap)
        invariant phases == old(phases) && entityGroups == old(entityGroups)
        invariant chartData == old(chartData) && measurementType == old(measurementType) && aggregationType == old(aggregationType)
        decreases |remaining|
      {
        var k :| k in remaining;
        ghost var prev := colourOrder;
        ColouriseSpecificType(k);
        colourOrder := colourOrder + [k];
        assert colourOrder[..|colourOrder| - 1] == prev;
        remaining := remaining - {k};
      }
    }

    /** colorizeGroupMeasurementsOfSpecificType: every row coloured for kind k with k's minimum and maximum. */
    method ColouriseSpecificType(k: MeasurementKey)
      requires k in maxMeasurementMap && k in minMeasurementMap
      modifies this
      ensures maxMeasurementMap == old(maxMeasurementMap) && minMeasurementMap == old(minMeasurementMap) && seenMeasurements == old(seenMeasurements)
      ensures groupMeasurementsList == ColourRows(old(groupMeasurementsList), k, minMeasurementMap[k], maxMeasurementMap[k])
      ensures phases == old(phases) && entityGroups == old(entityGroups) && colourOrder == old(colourOrder)
      ensures chartData == old(chartData) && measurementType == old(measurementType) && aggregationType == old(aggregationType)
    {
      var lo, hi := minMeasurementMap[k], maxMeasurementMap[k];
      var i := 0;
      while i < |groupMeasurementsList|
        invariant 0 <= i <= |groupMeasurementsList| == |old(groupMeasurementsList)|
        invariant forall m :: 0 <= m < i ==> groupMeasurementsList[m] == ColourRow(old(groupMeasurementsList)[m], k, lo, hi)
        invariant forall m :: i <= m < |groupMeasurementsList| ==> groupMeasurementsList[m] == old(groupMeasurementsList)[m]
        invariant maxMeasurementMap == old(maxMeasurementMap) && minMeasurementMap == old(minMeasurementMap) && seenMeasurements == old(seenMeasurements)
        invariant phases == old(phases) && entityGroups == old(entityGroups) && colourOrder == old(colourOrder)
        invariant chartData == old(chartData) && measurementType == old(measurementType) && aggregationType == old(aggregationType)
      {
        var row := ColouredRow(groupMeasurementsList[i], k, lo, hi);
        groupMeasurementsList := groupMeasurementsList[i := row];
        i := i + 1;
      }
    }

    /**
     * generateChartData: the selected kinds are recorded, and the chart holds
     * one new row per grid row, in order, with that row's measurements of the
     * selected kind.
     */
    method GenerateChartData(mt: MeasurementType, at: AggregationType)
      modifies this
      ensures measurementType == mt && aggregationType == at
      ensures |chartData| == |groupMeasurementsList|
      ensures forall i :: 0 <= i < |chartData| ==> fresh(chartData[i]) && ChartRowOf(chartData[i], groupMeasurementsList[i], MeasurementKey(mt, at))
      ensures groupMeasurementsList == old(groupMeasurementsList) && phases == old(phases) && entityGroups == old(entityGroups)
      ensures maxMeasurementMap == old(maxMeasurementMap) && minMeasurementMap == old(minMeasurementMap) && seenMeasurements == old(seenMeasurements)
    {
      measurementType := mt;
      aggregationType := at;
      var k := MeasurementKey(mt, at);
      var rows: seq<ChartGroupPhaseMeasurement> := [];
      var i := 0;
      while i < |groupMeasurementsList|
        invariant 0 <= i <= |groupMeasurementsList| && |rows| == i
        invariant forall m :: 0 <= m < i ==> fresh(rows[m]) && ChartRowOf(rows[m], groupMeasurementsList[m], k)
        modifies {}
      {
        var row := NewChartRow(groupMeasurementsList[i], k);
        rows := rows + [row];
        i := i + 1;
      }
      chartData := rows;
    }

    /** sortChartData: List.sort with the comparator of the sorting type, a permutation ordered by the compared value. */
    method SortChartData(t: SortingType)
      modifies this
      ensures multiset(chartData) == multiset(old(chartData))
      ensures forall i, j :: 0 <= i < j < |chartData| ==> InOrder(RowKey(t, chartData[i]), RowKey(t, chartData[j]), Ascending(t))
      ensures forall k :: RowsWithKey(t, chartData, k) == RowsWithKey(t, old(chartData), k)
      ensures groupMeasurementsList == old(groupMeasurementsList) && phases == old(phases) && entityGroups == old(entityGroups)
      ensures measurementType == old(measurementType) && aggregationType == old(aggregationType)
    {
      var keyOf: map<ChartGroupPhaseMeasurement, int> := map[];
      var i := 0;
      while i < |chartData|
        invariant 0 <= i <= |chartData|
        invariant forall m :: 0 <= m < i ==> chartData[m] in keyOf
        invariant forall r :: r in keyOf ==> keyOf[r] == RowKey(t, r)
      {
        keyOf := keyOf[chartData[i] := RowKey(t, chartData[i])];
        i := i + 1;
      }
      var key := (r: ChartGroupPhaseMeasurement) => if r in keyOf then keyOf[r] else 0;
      ghost var before := chartData;
      chartData := SortBy(chartData, key, Ascending(t));
      forall r | r in before ensures key(r) == RowKey(t, r) {
        var m :| 0 <= m < |before| && before[m] == r;
      }
      SortedByRowKey(t, before, key);
      assert chartData == SortBy(before, key, Ascending(t));
    }
    // ----- the GPM text -----

    /** getPhasesString: the phases' header fields separated by tabs, then a newline. */
    method GetPhasesString() returns (s: string)
      requires PhasesValid(phases)
      ensures s == HeaderText(BoundsOf(phases))
    {
      s := PhasesHeader(BoundsOf(phases));
    }

    /** generateGPMString: the group id, the member names and the entries of the phases the row has a value in. */
    method GenerateGpmString(row: ChartGroupPhaseMeasurement, fmt: real -> string) returns (s: string)
      requires PhasesValid(phases)
      ensures s == RowText(row.entityGroup.entityGroupId, row.entityGroup.names, PhaseIdsOf(BoundsOf(phases)), ValuesOf(row.measurementToPhaseMap), fmt)
    {
      s := RowLine(PhaseIdsOf(BoundsOf(phases)), GpmRowOf(row), fmt);
    }

    /** getGPMString: the header line, then each chart row's line followed by a newline. */
    method GetGpmString(fmt: real -> string) returns (s: string)
      requires PhasesValid(phases)
      ensures s == GpmString(old(BoundsOf(phases)), old(GpmRowsOf(chartData)), fmt)
    {
      s := GpmOf(BoundsOf(phases), GpmRowsOf(chartData), fmt);
    }

    // ----- loading a saved clustering -----

    /**
     * loadPhases: for each (id, first, last) a new phase of the beats at
     * timeline positions first..last is appended; getBeat's index must be
     * in the timeline.
     */
    method LoadPhases(triples: seq<(int, int, int)>)
      requires forall i :: 0 <= i < |triples| ==> 0 <= triples[i].1 && Max(triples[i].1, triples[i].2) < |dataHandler.timeline|
      modifies this
      ensures |phases| == |old(phases)| + |triples| && old(phases) <= phases
      ensures forall i :: 0 <= i < |triples| ==>
                fresh(phases[|old(phases)| + i]) && LoadedPhase(phases[|old(phases)| + i], dataHandler.timeline, triples[i])
      ensures entityGroups == old(entityGroups) && groupMeasurementsList == old(groupMeasurementsList) && chartData == old(chartData)
      ensures maxMeasurementMap == old(maxMeasurementMap) && minMeasurementMap == old(minMeasurementMap)
    {
      var timeline := dataHandler.timeline;
      var added: seq<Phase> := [];
      var i := 0;
      while i < |triples|
        invariant 0 <= i <= |triples| && |added| == i
        invariant forall k :: 0 <= k < i ==> fresh(added[k]) && LoadedPhase(added[k], timeline, triples[k])
        modifies {}
      {
        var (id, first, last) := triples[i];
        var p := NewPhase(timeline, id, first, last);
        added := added + [p];
        i := i + 1;
      }
      phases := phases + added;
    }

    /**
     * loadEntityGroup: for each group id, in ascending order, a new group of
     * the entities named, each the first of the population with its name.
     */
    method LoadEntityGroup(data: map<int, seq<string>>)
      requires forall k :: k in data ==> |data[k]| >= 1 && forall n :: n in data[k] ==> FirstNamed(dataHandler.population, n) != -1
      modifies this
      ensures |entityGroups| == |old(entityGroups)| + |SortedKeys(data.Keys)| && old(entityGroups) <= entityGroups
      ensures forall j :: 0 <= j < |SortedKeys(data.Keys)| ==>
                SortedKeys(data.Keys)[j] in data && fresh(entityGroups[|old(entityGroups)| + j])
                && LoadedGroup(entityGroups[|old(entityGroups)| + j], dataHandler.population, SortedKeys(data.Keys)[j], data[SortedKeys(data.Keys)[j]])
      ensures phases == old(phases) && groupMeasurementsList == old(groupMeasurementsList) && chartData == old(chartData)
      ensures maxMeasurementMap == old(maxMeasurementMap) && minMeasurementMap == old(minMeasurementMap)
    {
      var population := dataHandler.population;
      var keys := AscendingKeys(data.Keys);
      SortedKeysIn(data.Keys);
      var added: seq<EntityGroup> := [];
      for i := 0 to |keys|
        invariant |added| == i
        invariant forall j :: 0 <= j < i ==> fresh(added[j]) && LoadedGroup(added[j], population, keys[j], data[keys[j]])
        modifies {}
      {
        var g := NewGroup(population, keys[i], data[keys[i]]);
        added := added + [g];
      }
      entityGroups := entityGroups + added;
    }
  }
}
