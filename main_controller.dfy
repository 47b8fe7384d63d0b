/**
 * MainController: the object one project session drives. The model keeps
 * what the controller itself decides: the reload flag and the pattern
 * cache, the id lookups of groups and phases, the per-entity breakdown of
 * one grid cell, and the empty chart before any clustering. Loading,
 * clustering and pattern search are modelled in their own modules; here
 * their results come in as arguments.
 */
module MainControl {
  import opened Wrappers
  import opened Kinds
  import opened Models
  import opened Groups
  import opened Phases
  import opened Chart
  import opened Data
  import opened Grid

  /** A java.io.File: the controller compares files by reference, so a file is an object. */
  class File {
    const path: string

    constructor (path: string)
      ensures this.path == path
    {
      this.path := path;
    }
  }

  // ----- the pattern cache -----

  /** The three fields getPatterns consults: the cached list, the reload flag and the kind last asked for (None for null). */
  datatype PatternCache = PatternCache(patterns: seq<PatternData>, fileHasChanged: bool, previous: Option<PatternType>)

  /** The pattern manager runs again iff nothing is cached, a new file was loaded, or another kind is asked for. */
  predicate MustRecompute(c: PatternCache, kind: PatternType) {
    c.patterns == [] || c.fileHasChanged || c.previous != Some(kind)
  }

  /** The cache after getPatterns(kind), where `computed` is what the pattern manager would return now. */
  function Requested(c: PatternCache, kind: PatternType, computed: seq<PatternData>): (r: PatternCache)
    ensures !r.fileHasChanged && r.previous == Some(kind)
    ensures r.patterns == (if MustRecompute(c, kind) then computed else c.patterns)
  {
    PatternCache(if MustRecompute(c, kind) then computed else c.patterns, false, Some(kind))
  }

  /** load: the flag is raised when the file is not the selected one, and never lowered. */
  function Loaded(c: PatternCache, sameFile: bool): PatternCache {
    c.(fileHasChanged := c.fileHasChanged || !sameFile)
  }

  /** Asking twice for the same kind returns the cached list the second time, whatever the manager would give. */
  lemma RepeatedRequestIsCached(c: PatternCache, kind: PatternType, computed: seq<PatternData>, later: seq<PatternData>)
    requires Requested(c, kind, computed).patterns != []
    ensures Requested(Requested(c, kind, computed), kind, later) == Requested(c, kind, computed)
  {
  }

  /** After another file is loaded, the next request recomputes whatever was cached. */
  lemma NewFileRecomputes(c: PatternCache, kind: PatternType, computed: seq<PatternData>)
    ensures Requested(Loaded(c, false), kind, computed).patterns == computed
  {
  }

  /** Reloading the selected file keeps the cache for the kind last asked for. */
  lemma SameFileKeepsCache(c: PatternCache, kind: PatternType, computed: seq<PatternData>, later: seq<PatternData>)
    requires Requested(c, kind, computed).patterns != []
    ensures Requested(Loaded(Requested(c, kind, computed), true), kind, later).patterns == Requested(c, kind, computed).patterns
  {
  }

  /** A request for another kind than the previous one recomputes. */
  lemma OtherKindRecomputes(c: PatternCache, kind: PatternType, other: PatternType, computed: seq<PatternData>, later: seq<PatternData>)
    requires kind != other
    ensures Requested(Requested(c, kind, computed), other, later).patterns == later
  {
  }

  // ----- lookups by id -----

  /** The first group with the id, or None. */
  function GroupWithId(gs: seq<EntityGroup>, id: int): (r: Option<EntityGroup>)
    reads gs
    ensures r.None? <==> forall j :: 0 <= j < |gs| ==> gs[j].entityGroupId != id
    ensures r.Some? ==> exists k :: 0 <= k < |gs| && gs[k] == r.value && gs[k].entityGroupId == id &&
                                    forall j :: 0 <= j < k ==> gs[j].entityGroupId != id
    decreases |gs|
  {
    if gs == [] then None
    else if gs[0].entityGroupId == id then Some(gs[0])
    else
      var r := GroupWithId(gs[1..], id);
      assert forall j :: 1 <= j < |gs| ==> gs[j] == gs[1..][j - 1];
      r
  }

  /** The first phase with the id, or None. */
  function PhaseWithId(ps: seq<Phase>, id: int): (r: Option<Phase>)
    reads ps
    ensures r.None? <==> forall j :: 0 <= j < |ps| ==> ps[j].phaseId != id
    ensures r.Some? ==> exists k :: 0 <= k < |ps| && ps[k] == r.value && ps[k].phaseId == id &&
                                    forall j :: 0 <= j < k ==> ps[j].phaseId != id
    decreases |ps|
  {
    if ps == [] then None
    else if ps[0].phaseId == id then Some(ps[0])
    else
      var r := PhaseWithId(ps[1..], id);
      assert forall j :: 1 <= j < |ps| ==> ps[j] == ps[1..][j - 1];
      r
  }

  // ----- the cell breakdown -----

  /** One entry of getCellBreakdown: the keys "entityName", "value" and "beatCount". */
  datatype BreakdownEntry = BreakdownEntry(entityName: string, value: real, beatCount: int)

  /**
   * The measurements of the entity's TEM at one phase beat: the beat id is
   * used as a timeline position (getBeat), and a missing TEM gives nothing.
   * An id outside the timeline makes getBeat throw, which fails the whole
   * breakdown (Breakdown); here it gives nothing.
   */
  function MeasurementsAtBeat(index: map<string, map<int, TimeEntityMeasurements>>, timeline: seq<Beat>, e: Entity, beatId: int): seq<IMeasurement>
  {
    if 0 <= beatId < |timeline| && e.entityName in index && timeline[beatId].beatId in index[e.entityName] then
      index[e.entityName][timeline[beatId].beatId].measurements
    else []
  }

  /** Every measurement summed for the entity over the phase's beats, in beat order. */
  function MeasurementsAt(index: map<string, map<int, TimeEntityMeasurements>>, timeline: seq<Beat>, e: Entity, beatIds: seq<int>): seq<IMeasurement>
    decreases |beatIds|
  {
    if beatIds == [] then []
    else MeasurementsAt(index, timeline, e, beatIds[..|beatIds| - 1]) + MeasurementsAtBeat(index, timeline, e, beatIds[|beatIds| - 1])
  }

  function Total(ms: seq<IMeasurement>): real
    decreases |ms|
  {
    if ms == [] then 0.0 else Total(ms[..|ms| - 1]) + ms[|ms| - 1].Value()
  }

  lemma TotalSnoc(ms: seq<IMeasurement>, m: IMeasurement)
    ensures Total(ms + [m]) == Total(ms) + m.Value()
  {
    assert (ms + [m])[..|ms|] == ms;
  }

  /** The sum over a concatenation is the sum of the sums. */
  lemma {:induction false} TotalAppend(a: seq<IMeasurement>, b: seq<IMeasurement>)
    ensures Total(a + b) == Total(a) + Total(b)
    decreases |b|
  {
    if b != [] {
      var b0 := b[..|b| - 1];
      TotalAppend(a, b0);
      assert a + b == (a + b0) + [b[|b| - 1]];
      TotalSnoc(a + b0, b[|b| - 1]);
      assert b == b0 + [b[|b| - 1]];
      TotalSnoc(b0, b[|b| - 1]);
    } else {
      assert a + b == a;
    }
  }

  /** The measurements over two runs of beats are those of the first run followed by those of the second. */
  lemma {:induction false} MeasurementsAtAppend(index: map<string, map<int, TimeEntityMeasurements>>, timeline: seq<Beat>, e: Entity, ids1: seq<int>, ids2: seq<int>)
    ensures MeasurementsAt(index, timeline, e, ids1 + ids2) == MeasurementsAt(index, timeline, e, ids1) + MeasurementsAt(index, timeline, e, ids2)
    decreases |ids2|
  {
    if ids2 == [] {
      assert ids1 + ids2 == ids1;
    } else {
      var front := ids2[..|ids2| - 1];
      var x := ids2[|ids2| - 1];
      assert ids1 + ids2 == (ids1 + front) + [x];
      assert (ids1 + ids2)[..|ids1 + ids2| - 1] == ids1 + front;
      MeasurementsAtAppend(index, timeline, e, ids1, front);
    }
  }

  /**
   * A breakdown is additive over phases: the entry of an entity for two runs
   * of beats (a merged phase) sums the values and the counts of the two runs.
   */
  lemma BreakdownAdditive(index: map<string, map<int, TimeEntityMeasurements>>, timeline: seq<Beat>, e: Entity, ids1: seq<int>, ids2: seq<int>)
    ensures var whole := EntryOf(index, timeline, e, ids1 + ids2);
            var first := EntryOf(index, timeline, e, ids1);
            var second := EntryOf(index, timeline, e, ids2);
            (whole.value == first.value + second.value && whole.beatCount == first.beatCount + second.beatCount)
  {
    MeasurementsAtAppend(index, timeline, e, ids1, ids2);
    TotalAppend(MeasurementsAt(index, timeline, e, ids1), MeasurementsAt(index, timeline, e, ids2));
  }

  /** The entry of one entity: the sum of its measurements at the phase's beats, and how many there were. */
  function EntryOf(index: map<string, map<int, TimeEntityMeasurements>>, timeline: seq<Beat>, e: Entity, beatIds: seq<int>): BreakdownEntry
  {
    var ms := MeasurementsAt(index, timeline, e, beatIds);
    BreakdownEntry(e.entityName, Total(ms), |ms|)
  }

  /** Every beat id of the phase is a position of the timeline, so getBeat never throws. */
  predicate InTimeline(timeline: seq<Beat>, beatIds: seq<int>) {
    forall j :: 0 <= j < |beatIds| ==> 0 <= beatIds[j] < |timeline|
  }

  /**
   * The breakdown of a group over a phase: one entry per member name that
   * names an entity of the population (the first with that name), in
   * member order. It fails (None, where getBeat throws) exactly when some
   * member resolves and some beat id of the phase is outside the timeline.
   */
  function Breakdown(index: map<string, map<int, TimeEntityMeasurements>>, population: seq<Entity>, timeline: seq<Beat>,
                     names: seq<string>, beatIds: seq<int>): (r: Option<seq<BreakdownEntry>>)
    ensures r.None? <==> !InTimeline(timeline, beatIds) && exists k :: 0 <= k < |names| && FirstNamed(population, names[k]) != -1
    ensures r.Some? ==> |r.value| <= |names|
    ensures r.Some? ==> forall k :: 0 <= k < |r.value| ==> r.value[k].entityName in names && FirstNamed(population, r.value[k].entityName) != -1
    decreases |names|
  {
    if names == [] then Some([])
    else
      var front := Breakdown(index, population, timeline, names[..|names| - 1], beatIds);
      var name := names[|names| - 1];
      var i := FirstNamed(population, name);
      assert forall j :: 0 <= j < |names| - 1 ==> names[..|names| - 1][j] == names[j];
      if i == -1 then front
      else if front.None? || !InTimeline(timeline, beatIds) then None
      else Some(front.value + [EntryOf(index, timeline, population[i], beatIds)])
  }

  /** A breakdown that fails over the first names fails over all of them. */
  lemma BreakdownFailsFrom(index: map<string, map<int, TimeEntityMeasurements>>, population: seq<Entity>, timeline: seq<Beat>,
                           names: seq<string>, i: int, beatIds: seq<int>)
    requires 0 <= i <= |names|
    requires Breakdown(index, population, timeline, names[..i], beatIds).None?
    ensures Breakdown(index, population, timeline, names, beatIds).None?
  {
    var k :| 0 <= k < i && FirstNamed(population, names[..i][k]) != -1;
    assert names[..i][k] == names[k];
  }

  /** One more member name: its entry, when it names an entity, follows those of the names before it. */
  lemma BreakdownStep(index: map<string, map<int, TimeEntityMeasurements>>, population: seq<Entity>, timeline: seq<Beat>,
                      names: seq<string>, i: int, beatIds: seq<int>)
    requires 0 <= i < |names|
    ensures var front := Breakdown(index, population, timeline, names[..i], beatIds);
            var at := FirstNamed(population, names[i]);
            Breakdown(index, population, timeline, names[..i + 1], beatIds) ==
              (if at == -1 then front
               else if front.None? || !InTimeline(timeline, beatIds) then None
               else Some(front.value + [EntryOf(index, timeline, population[at], beatIds)]))
  {
    assert names[..i + 1][..i] == names[..i];
  }

  /**
   * When every member name resolves, the breakdown fails exactly when a beat
   * id is outside the timeline (and there is a member), and otherwise the
   * k-th entry is the k-th member's.
   */
  lemma {:induction false} BreakdownOfResolvedNames(index: map<string, map<int, TimeEntityMeasurements>>, population: seq<Entity>, timeline: seq<Beat>,
                                                     names: seq<string>, beatIds: seq<int>)
    requires forall j :: 0 <= j < |names| ==> FirstNamed(population, names[j]) != -1
    ensures var r := Breakdown(index, population, timeline, names, beatIds);
            (r.Some? <==> names == [] || InTimeline(timeline, beatIds)) &&
            (r.Some? ==>
              |r.value| == |names| &&
              forall k :: 0 <= k < |names| ==> r.value[k] == EntryOf(index, timeline, population[FirstNamed(population, names[k])], beatIds))
    decreases |names|
  {
    if names != [] && InTimeline(timeline, beatIds) {
      var front := names[..|names| - 1];
      var last := names[|names| - 1];
      assert forall j :: 0 <= j < |front| ==> front[j] == names[j];
      BreakdownOfResolvedNames(index, population, timeline, front, beatIds);
      var rf := Breakdown(index, population, timeline, front, beatIds).value;
      var e := EntryOf(index, timeline, population[FirstNamed(population, last)], beatIds);
      assert Breakdown(index, population, timeline, names, beatIds) == Some(rf + [e]);
      forall k | 0 <= k < |names|
        ensures (rf + [e])[k] == EntryOf(index, timeline, population[FirstNamed(population, names[k])], beatIds)
      {
        if k == |front| {
          assert (rf + [e])[k] == e;
        } else {
          assert (rf + [e])[k] == rf[k];
          assert names[k] == front[k];
        }
      }
    }
  }

  /** The innermost loop of getCellBreakdown: the sum and the number of one TEM's measurements. */
  method SumOf(ms: seq<IMeasurement>) returns (total: real, count: int)
    ensures total == Total(ms) && count == |ms|
  {
    total, count := 0.0, 0;
    var k := 0;
    while k < |ms|
      invariant 0 <= k <= |ms|
      invariant total == Total(ms[..k]) && count == k
    {
      assert ms[..k + 1] == ms[..k] + [ms[k]];
      TotalSnoc(ms[..k], ms[k]);
      total := total + ms[k].Value();
      count := count + 1;
      k := k + 1;
    }
    assert ms[..k] == ms;
  }

  /**
   * The entity's totals over the phase's beats: the beat loop of
   * getCellBreakdown. `ok` is false where getBeat throws, at a beat id
   * outside the timeline.
   */
  method EntityTotal(dh: DataHandler, e: Entity, beatIds: seq<int>) returns (ok: bool, total: real, count: int)
    ensures ok <==> InTimeline(dh.timeline, beatIds)
    ensures ok ==> var ms := MeasurementsAt(dh.entityNameToTEMMap, dh.timeline, e, beatIds);
                   total == Total(ms) && count == |ms|
  {
    ghost var index, timeline := dh.entityNameToTEMMap, dh.timeline;
    ok, total, count := true, 0.0, 0;
    var j := 0;
    while j < |beatIds|
      invariant 0 <= j <= |beatIds|
      invariant InTimeline(timeline, beatIds[..j])
      invariant total == Total(MeasurementsAt(index, timeline, e, beatIds[..j]))
      invariant count == |MeasurementsAt(index, timeline, e, beatIds[..j])|
    {
      ghost var before := MeasurementsAt(index, timeline, e, beatIds[..j]);
      ghost var here := MeasurementsAtBeat(index, timeline, e, beatIds[j]);
      assert beatIds[..j + 1][..j] == beatIds[..j];
      assert MeasurementsAt(index, timeline, e, beatIds[..j + 1]) == before + here;
      var beat := dh.GetBeat(beatIds[j]);
      if beat.Some? {
        var tem := dh.GetTem(e, beat.value);
        if tem.Some? && tem.value.measurements != [] {
          var ms := tem.value.measurements;
          assert here == ms;
          var sum, n := SumOf(ms);
          TotalAppend(before, ms);
          total := total + sum;
          count := count + n;
        } else {
          assert here == [];
          assert before + here == before;
        }
      } else {
        assert !(0 <= beatIds[j] < |timeline|);
        return false, total, count;
      }
      assert InTimeline(timeline, beatIds[..j + 1]) by {
        var pre := beatIds[..j + 1];
        forall k | 0 <= k < |pre| ensures 0 <= pre[k] < |timeline| {
          if k < j {
            assert pre[k] == beatIds[..j][k];
          }
        }
      }
      j := j + 1;
    }
    assert beatIds[..j] == beatIds;
  }

  /** The member loop of getCellBreakdown over a found group and phase. */
  method CellBreakdown(dh: DataHandler, names: seq<string>, beatIds: seq<int>) returns (breakdown: Option<seq<BreakdownEntry>>)
    ensures breakdown == Breakdown(dh.entityNameToTEMMap, dh.population, dh.timeline, names, beatIds)
  {
    var entries := [];
    var i := 0;
    while i < |names|
      invariant 0 <= i <= |names|
      invariant Some(entries) == Breakdown(dh.entityNameToTEMMap, dh.population, dh.timeline, names[..i], beatIds)
    {
      BreakdownStep(dh.entityNameToTEMMap, dh.population, dh.timeline, names, i, beatIds);
      var entity := dh.GetEntityByName(names[i]);
      ghost var at := FirstNamed(dh.population, names[i]);
      assert entity == (if at == -1 then None else Some(dh.population[at]));
      if entity.Some? {
        var ok, total, count := EntityTotal(dh, entity.value, beatIds);
        if !ok {
          assert names[..i + 1][i] == names[i];
          BreakdownFailsFrom(dh.entityNameToTEMMap, dh.population, dh.timeline, names, i + 1, beatIds);
          return None;
        }
        assert BreakdownEntry(names[i], total, count) == EntryOf(dh.entityNameToTEMMap, dh.timeline, dh.population[at], beatIds);
        entries := entries + [BreakdownEntry(names[i], total, count)];
      }
      i := i + 1;
    }
    assert names[..i] == names;
    breakdown := Some(entries);
  }

  class MainController {
    /** The data of the loaded file; null before load. */
    var dataHandler: DataHandler?
    /** The clustering of the data; null before fitDataToGroupPhaseMeasurements. */
    var clusteringHandler: ClusteringHandler?
    var totalPatternList: seq<PatternData>
    var selectedFile: File
    var fileHasChanged: bool
    var previousPatternType: Option<PatternType>

    function Cache(): PatternCache
      reads this
    {
      PatternCache(totalPatternList, fileHasChanged, previousPatternType)
    }

    /** A fresh controller: nothing loaded, nothing clustered, nothing cached, and the selected file is new File(""). */
    constructor ()
      ensures dataHandler == null && clusteringHandler == null
      ensures Cache() == PatternCache([], false, None)
      ensures fresh(selectedFile) && selectedFile.path == ""
    {
      dataHandler := null;
      clusteringHandler := null;
      totalPatternList := [];
      selectedFile := new File("");
      fileHasChanged := false;
      previousPatternType := None;
    }

    /**
     * load: the flag is raised when the file is another object than the
     * selected one; the data handler is what the file handler loaded.
     */
    method Load(inputFile: File, loaded: DataHandler)
      modifies this
      ensures Cache() == Loaded(old(Cache()), inputFile == old(selectedFile))
      ensures selectedFile == inputFile && dataHandler == loaded
      ensures clusteringHandler == old(clusteringHandler)
    {
      if inputFile != selectedFile {
        fileHasChanged := true;
      }
      dataHandler := loaded;
      selectedFile := inputFile;
    }

    /** fitDataToGroupPhaseMeasurements: the controller keeps the clustering handler built over its data. */
    method FitData(clustered: ClusteringHandler)
      requires dataHandler != null && clustered.dataHandler == dataHandler
      modifies this
      ensures clusteringHandler == clustered
      ensures dataHandler == old(dataHandler) && selectedFile == old(selectedFile) && Cache() == old(Cache())
    {
      clusteringHandler := clustered;
    }

    /** getChartData: the handler's chart rows, and an empty list before any clustering. */
    function GetChartData(): (r: seq<ChartGroupPhaseMeasurement>)
      reads this, clusteringHandler
      ensures clusteringHandler == null ==> r == []
      ensures clusteringHandler != null ==> r == clusteringHandler.chartData
    {
      if clusteringHandler == null then [] else clusteringHandler.chartData
    }

    /**
     * getPatterns: `computed` is what the pattern manager finds in the
     * current chart data and phases; it is used only when the cache must be
     * rebuilt, which needs a clustering.
     */
    method GetPatterns(patternType: PatternType, computed: seq<PatternData>) returns (patterns: seq<PatternData>)
      requires MustRecompute(Cache(), patternType) ==> clusteringHandler != null
      modifies this
      ensures Cache() == Requested(old(Cache()), patternType, computed)
      ensures patterns == totalPatternList
      ensures dataHandler == old(dataHandler) && clusteringHandler == old(clusteringHandler) && selectedFile == old(selectedFile)
    {
      if totalPatternList == [] || fileHasChanged || previousPatternType != Some(patternType) {
        totalPatternList := computed;
      }
      fileHasChanged := false;
      previousPatternType := Some(patternType);
      patterns := totalPatternList;
    }

    /** getEntityGroupById: the first group with the id; None when there is none or nothing is clustered. */
    method GetEntityGroupById(entityGroupId: int) returns (group: Option<EntityGroup>)
      ensures clusteringHandler == null ==> group == None
      ensures clusteringHandler != null ==> group == GroupWithId(clusteringHandler.entityGroups, entityGroupId)
    {
      if clusteringHandler == null {
        return None;
      }
      var groups := clusteringHandler.entityGroups;
      var i := 0;
      while i < |groups|
        invariant 0 <= i <= |groups|
        invariant GroupWithId(groups, entityGroupId) == GroupWithId(groups[i..], entityGroupId)
      {
        if groups[i].entityGroupId == entityGroupId {
          return Some(groups[i]);
        }
        assert groups[i..][1..] == groups[i + 1..];
        i := i + 1;
      }
      return None;
    }

    /** getPhaseById: the first phase with the id; None when there is none or nothing is clustered. */
    method GetPhaseById(phaseId: int) returns (phase: Option<Phase>)
      ensures clusteringHandler == null ==> phase == None
      ensures clusteringHandler != null ==> phase == PhaseWithId(clusteringHandler.phases, phaseId)
    {
      if clusteringHandler == null {
        return None;
      }
      var phases := clusteringHandler.phases;
      var i := 0;
      while i < |phases|
        invariant 0 <= i <= |phases|
        invariant PhaseWithId(phases, phaseId) == PhaseWithId(phases[i..], phaseId)
      {
        if phases[i].phaseId == phaseId {
          return Some(phases[i]);
        }
        assert phases[i..][1..] == phases[i + 1..];
        i := i + 1;
      }
      return None;
    }

    /** The group and the phase a cell breakdown is asked for, when both exist and data is loaded. */
    function CellOf(entityGroupId: int, phaseId: int): Option<(EntityGroup, Phase)>
      reads this, clusteringHandler, dataHandler
      reads if clusteringHandler == null then {} else set g | g in clusteringHandler.entityGroups
      reads if clusteringHandler == null then {} else set p | p in clusteringHandler.phases
    {
      if clusteringHandler == null || dataHandler == null then None
      else
        var g := GroupWithId(clusteringHandler.entityGroups, entityGroupId);
        var p := PhaseWithId(clusteringHandler.phases, phaseId);
        if g.None? || p.None? then None else Some((g.value, p.value))
    }

    /**
     * getCellBreakdown: empty when the group, the phase or the data is
     * missing; otherwise one entry per member name that names an entity,
     * holding the sum and the number of all its measurements at the phase's
     * beats; None where getBeat throws on a beat id outside the timeline.
     */
    method GetCellBreakdown(entityGroupId: int, phaseId: int) returns (breakdown: Option<seq<BreakdownEntry>>)
      ensures CellOf(entityGroupId, phaseId).None? ==> breakdown == Some([])
      ensures CellOf(entityGroupId, phaseId).Some? ==>
                var (g, p) := CellOf(entityGroupId, phaseId).value;
                breakdown == Breakdown(dataHandler.entityNameToTEMMap, dataHandler.population, dataHandler.timeline, g.names, p.idList)
    {
      var group := GetEntityGroupById(entityGroupId);
      var phase := GetPhaseById(phaseId);
      if group.None? || phase.None? || dataHandler == null {
        return Some([]);
      }
      breakdown := CellBreakdown(dataHandler, group.value.names, phase.value.idList);
    }
  }
}
