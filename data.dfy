/**
 * DataHandler: the loaded timeline, population and TEM list, the two
 * indexes over the TEMs (entity name -> beat id -> TEM and beat id ->
 * entity name -> TEM), the lookups the clustering uses, and the TEM export
 * text.
 */
module Data {
  import opened Wrappers
  import opened Kinds
  import opened Models
  import opened Text

  // ----- the two indexes, as functions of the TEM list -----

  predicate IsPair(t: TimeEntityMeasurements, name: string, beatId: int) {
    t.entity.entityName == name && t.beat.beatId == beatId
  }

  /** The position of the last TEM for (name, beatId), or -1 when there is none. */
  function LastFor(tems: seq<TimeEntityMeasurements>, name: string, beatId: int): (r: int)
    ensures -1 <= r < |tems|
    ensures r >= 0 ==> IsPair(tems[r], name, beatId) && forall j :: r < j < |tems| ==> !IsPair(tems[j], name, beatId)
    ensures r == -1 <==> forall j :: 0 <= j < |tems| ==> !IsPair(tems[j], name, beatId)
  {
    if tems == [] then -1
    else if IsPair(tems[|tems| - 1], name, beatId) then |tems| - 1
    else LastFor(tems[..|tems| - 1], name, beatId)
  }

  /** entity name -> beat id -> TEM, filled in list order, so a later TEM for the same pair replaces an earlier one. */
  function EntityIndex(tems: seq<TimeEntityMeasurements>): map<string, map<int, TimeEntityMeasurements>>
  {
    if tems == [] then map[]
    else
      var m := EntityIndex(tems[..|tems| - 1]);
      var t := tems[|tems| - 1];
      var name := t.entity.entityName;
      m[name := (if name in m then m[name] else map[])[t.beat.beatId := t]]
  }

  /** beat id -> entity name -> TEM, filled the same way. */
  function BeatIndex(tems: seq<TimeEntityMeasurements>): map<int, map<string, TimeEntityMeasurements>>
  {
    if tems == [] then map[]
    else
      var m := BeatIndex(tems[..|tems| - 1]);
      var t := tems[|tems| - 1];
      var b := t.beat.beatId;
      m[b := (if b in m then m[b] else map[])[t.entity.entityName := t]]
  }

  /**
   * The entity index covers exactly the TEM list: a name is a key iff some
   * TEM has it, a (name, beat) entry exists iff some TEM has that pair, and
   * the entry is the last such TEM.
   */
  lemma {:induction false} EntityIndexIsLast(tems: seq<TimeEntityMeasurements>, name: string, beatId: int)
    ensures name in EntityIndex(tems) <==> exists i :: 0 <= i < |tems| && tems[i].entity.entityName == name
    ensures (name in EntityIndex(tems) && beatId in EntityIndex(tems)[name]) <==> LastFor(tems, name, beatId) >= 0
    ensures LastFor(tems, name, beatId) >= 0 ==> EntityIndex(tems)[name][beatId] == tems[LastFor(tems, name, beatId)]
    decreases |tems|
  {
    if tems != [] {
      var front := tems[..|tems| - 1];
      EntityIndexIsLast(front, name, beatId);
      if name in EntityIndex(tems) && name !in EntityIndex(front) {
        assert tems[|tems| - 1].entity.entityName == name;
      }
      if (exists i :: 0 <= i < |tems| && tems[i].entity.entityName == name) && name !in EntityIndex(front) {
        var i :| 0 <= i < |tems| && tems[i].entity.entityName == name;
        if i < |front| {
          assert front[i].entity.entityName == name;
        }
      }
    }
  }

  /** The same for the beat index. */
  lemma {:induction false} BeatIndexIsLast(tems: seq<TimeEntityMeasurements>, name: string, beatId: int)
    ensures beatId in BeatIndex(tems) <==> exists i :: 0 <= i < |tems| && tems[i].beat.beatId == beatId
    ensures (beatId in BeatIndex(tems) && name in BeatIndex(tems)[beatId]) <==> LastFor(tems, name, beatId) >= 0
    ensures LastFor(tems, name, beatId) >= 0 ==> BeatIndex(tems)[beatId][name] == tems[LastFor(tems, name, beatId)]
    decreases |tems|
  {
    if tems != [] {
      var front := tems[..|tems| - 1];
      BeatIndexIsLast(front, name, beatId);
      if beatId in BeatIndex(tems) && beatId !in BeatIndex(front) {
        assert tems[|tems| - 1].beat.beatId == beatId;
      }
      if (exists i :: 0 <= i < |tems| && tems[i].beat.beatId == beatId) && beatId !in BeatIndex(front) {
        var i :| 0 <= i < |tems| && tems[i].beat.beatId == beatId;
        if i < |front| {
          assert front[i].beat.beatId == beatId;
        }
      }
    }
  }

  /** The two indexes hold the same entries. */
  lemma IndexesAgree(tems: seq<TimeEntityMeasurements>, name: string, beatId: int)
    ensures (name in EntityIndex(tems) && beatId in EntityIndex(tems)[name]) <==> (beatId in BeatIndex(tems) && name in BeatIndex(tems)[beatId])
    ensures name in EntityIndex(tems) && beatId in EntityIndex(tems)[name] ==> EntityIndex(tems)[name][beatId] == BeatIndex(tems)[beatId][name]
  {
    EntityIndexIsLast(tems, name, beatId);
    BeatIndexIsLast(tems, name, beatId);
  }

  /** A repeated TEM is counted twice by the list length but indexed once. */
  lemma DuplicatesCountedOnce(t: TimeEntityMeasurements)
    ensures EntityIndex([t, t]) == EntityIndex([t]) && BeatIndex([t, t]) == BeatIndex([t])
    ensures |[t, t]| == 2
  {
    var name, b := t.entity.entityName, t.beat.beatId;
    assert [t, t][..1] == [t];
    assert [t][..0] == [];
    assert EntityIndex([t][..0]) == map[] && BeatIndex([t][..0]) == map[];
    var m := EntityIndex([t]);
    assert m == map[name := map[b := t]];
    assert m[name][b := t] == m[name];
    var n := BeatIndex([t]);
    assert n == map[b := map[name := t]];
    assert n[b][name := t] == n[b];
  }

  // ----- lookups -----

  /** The position of the first entity with that name, or -1 (the stream's findFirst). */
  function FirstNamed(population: seq<Entity>, name: string): (r: int)
    ensures -1 <= r < |population|
    ensures r >= 0 ==> population[r].entityName == name && forall j :: 0 <= j < r ==> population[j].entityName != name
    ensures r == -1 <==> forall j :: 0 <= j < |population| ==> population[j].entityName != name
  {
    if population == [] then -1
    else if population[0].entityName == name then 0
    else
      var r := FirstNamed(population[1..], name);
      if r == -1 then -1 else r + 1
  }

  /** Beat.getDateAsString: the formatted date, or the beat id when the date did not parse. */
  function BeatLabel(b: Beat): string
  {
    if b.date.None? then IntToString(b.beatId) else b.date.value
  }

  /** The aggregation the export writes: SUM_OF_ALL for schema-evolution data, NO_AGGREGATION otherwise (also when no type was set). */
  function ExportAggregation(t: Option<FileType>): AggregationType
  {
    if t == Some(SCHEMA_EVO) then SUM_OF_ALL else NO_AGGREGATION
  }

  // ----- the export text -----

  /** The leading field of the exported header line, before the beat labels. */
  const TEM_HEADER := "{name, birthId, deathId, status}"

  function Labels(timeline: seq<Beat>): (r: seq<string>)
    ensures |r| == |timeline| && forall j :: 0 <= j < |timeline| ==> r[j] == BeatLabel(timeline[j])
  {
    seq(|timeline|, j requires 0 <= j < |timeline| => BeatLabel(timeline[j]))
  }

  /** The timeline line: labels separated by tabs and ended by a newline; nothing for an empty timeline. */
  function TimelineText(labels: seq<string>): string
  {
    if labels == [] then "" else Join(labels, '\t') + "\n"
  }

  /** "{name,birth,death,status}" with status 1 for alive and 0 otherwise. */
  function EntityInfo(e: Entity): string
  {
    "{" + e.entityName + "," + IntToString(e.lifeDetails.birthBeatId) + "," + IntToString(e.lifeDetails.deathBeatId) + ","
      + (if e.lifeDetails.isAlive then "1" else "0") + "}"
  }

  /** One exported cell: the formatted value of the key's measurement when the entity has a TEM there holding one, blank otherwise. */
  function CellText(index: map<string, map<int, TimeEntityMeasurements>>, name: string, beatId: int, k: MeasurementKey, fmt: real -> string): string
  {
    if name in index && beatId in index[name] && index[name][beatId].IndexOfKey(k) != -1 then
      fmt(index[name][beatId].ValueOfKey(k))
    else ""
  }

  function CellTexts(index: map<string, map<int, TimeEntityMeasurements>>, e: Entity, timeline: seq<Beat>, k: MeasurementKey, fmt: real -> string): (r: seq<string>)
    ensures |r| == |timeline|
    ensures forall j :: 0 <= j < |timeline| ==> r[j] == CellText(index, e.entityName, timeline[j].beatId, k, fmt)
  {
    seq(|timeline|, j requires 0 <= j < |timeline| => CellText(index, e.entityName, timeline[j].beatId, k, fmt))
  }

  /** An entity's line: its info, one field per beat and a final "\n" field, all tab-separated. */
  function EntityLine(index: map<string, map<int, TimeEntityMeasurements>>, e: Entity, timeline: seq<Beat>, k: MeasurementKey, fmt: real -> string): string
  {
    Join([EntityInfo(e)] + CellTexts(index, e, timeline, k, fmt) + ["\n"], '\t')
  }

  function MeasurementsText(index: map<string, map<int, TimeEntityMeasurements>>, population: seq<Entity>, timeline: seq<Beat>, k: MeasurementKey, fmt: real -> string): string
  {
    if population == [] then ""
    else MeasurementsText(index, population[..|population| - 1], timeline, k, fmt) + EntityLine(index, population[|population| - 1], timeline, k, fmt)
  }

  /** The loop of getMeasurementsAsString: the entity lines in population order. */
  method MeasurementsTextOf(index: map<string, map<int, TimeEntityMeasurements>>, population: seq<Entity>, timeline: seq<Beat>, k: MeasurementKey, fmt: real -> string)
    returns (s: string)
    ensures s == MeasurementsText(index, population, timeline, k, fmt)
  {
    s := "";
    for i := 0 to |population|
      invariant s == MeasurementsText(index, population[..i], timeline, k, fmt)
    {
      var line := EntityLineOf(index, population[i], timeline, k, fmt);
      MeasurementsTextStep(index, population, i, timeline, k, fmt);
      s := s + line;
    }
    assert population[..|population|] == population;
  }

  /** The text of the first i + 1 entities: that of the first i, then entity i's line. */
  lemma MeasurementsTextStep(index: map<string, map<int, TimeEntityMeasurements>>, population: seq<Entity>, i: int, timeline: seq<Beat>, k: MeasurementKey, fmt: real -> string)
    requires 0 <= i < |population|
    ensures MeasurementsText(index, population[..i + 1], timeline, k, fmt)
            == MeasurementsText(index, population[..i], timeline, k, fmt) + EntityLine(index, population[i], timeline, k, fmt)
  {
    var p := population[..i + 1];
    assert p[..|p| - 1] == population[..i] && p[|p| - 1] == population[i];
  }

  /** The inner loop of getMeasurementsAsString: one entity's line. */
  method EntityLineOf(index: map<string, map<int, TimeEntityMeasurements>>, e: Entity, timeline: seq<Beat>, k: MeasurementKey, fmt: real -> string)
    returns (line: string)
    ensures line == EntityLine(index, e, timeline, k, fmt)
  {
    var body := CellsLineOf(index, e, timeline, k, fmt);
    line := EntityInfo(e) + "\t" + body + "\n";
    JoinFramed(EntityInfo(e), CellTexts(index, e, timeline, k, fmt), "\n", '\t');
  }

  /** The cells of one entity's line, each followed by a tab. */
  method CellsLineOf(index: map<string, map<int, TimeEntityMeasurements>>, e: Entity, timeline: seq<Beat>, k: MeasurementKey, fmt: real -> string)
    returns (body: string)
    ensures body == Terminated(CellTexts(index, e, timeline, k, fmt), '\t')
  {
    ghost var cells := CellTexts(index, e, timeline, k, fmt);
    body := "";
    var j := 0;
    while j < |timeline|
      invariant 0 <= j <= |timeline|
      invariant body == Terminated(cells[..j], '\t')
    {
      var cell := CellText(index, e.entityName, timeline[j].beatId, k, fmt);
      TerminatedStep(cells, j, body, '\t');
      body := body + cell + "\t";
      j := j + 1;
    }
    assert cells[..j] == cells;
  }

  /**
   * Reading an entity's line back: cut at the tabs, it gives the entity's
   * info, then exactly one field per beat, then the newline, provided no
   * name and no formatted value holds a tab.
   */
  lemma EntityLineFields(index: map<string, map<int, TimeEntityMeasurements>>, e: Entity, timeline: seq<Beat>, k: MeasurementKey, fmt: real -> string)
    requires '\t' !in e.entityName
    requires forall v :: '\t' !in fmt(v)
    ensures Pieces(EntityLine(index, e, timeline, k, fmt), '\t') == [EntityInfo(e)] + CellTexts(index, e, timeline, k, fmt) + ["\n"]
  {
    var cells := CellTexts(index, e, timeline, k, fmt);
    var parts := [EntityInfo(e)] + cells + ["\n"];
    IntToStringPlain(e.lifeDetails.birthBeatId, '\t');
    IntToStringPlain(e.lifeDetails.deathBeatId, '\t');
    assert '\t' !in EntityInfo(e);
    forall j | 0 <= j < |parts| ensures '\t' !in parts[j] {
      if 1 <= j < |parts| - 1 {
        assert parts[j] == cells[j - 1];
      }
    }
    PiecesOfJoin(parts, '\t');
  }

  /** A timeline line cut at its tabs gives the labels back (the newline stays on the last one). */
  lemma TimelineTextFields(labels: seq<string>)
    requires labels != []
    requires forall j :: 0 <= j < |labels| ==> '\t' !in labels[j]
    ensures TimelineText(labels)[..|TimelineText(labels)| - 1] == Join(labels, '\t')
    ensures Pieces(Join(labels, '\t'), '\t') == labels
  {
    PiecesOfJoin(labels, '\t');
  }

  class DataHandler {
    /** The file type; None until setType is called. */
    var fileType: Option<FileType>
    var timeline: seq<Beat>
    var population: seq<Entity>
    var measurementsList: seq<TimeEntityMeasurements>
    var entityNameToTEMMap: map<string, map<int, TimeEntityMeasurements>>
    var beatIdToTEMMap: map<int, map<string, TimeEntityMeasurements>>

    /** The indexes are those of the TEM list. */
    ghost predicate Valid()
      reads this
    {
      entityNameToTEMMap == EntityIndex(measurementsList) && beatIdToTEMMap == BeatIndex(measurementsList)
    }

    constructor ()
      ensures fileType == None && timeline == [] && population == [] && measurementsList == []
      ensures Valid()
    {
      fileType := None;
      timeline := [];
      population := [];
      measurementsList := [];
      entityNameToTEMMap := map[];
      beatIdToTEMMap := map[];
    }

    method SetType(t: FileType)
      modifies this
      ensures fileType == Some(t)
      ensures timeline == old(timeline) && population == old(population) && measurementsList == old(measurementsList)
      ensures entityNameToTEMMap == old(entityNameToTEMMap) && beatIdToTEMMap == old(beatIdToTEMMap)
    {
      fileType := Some(t);
    }

    /** init: the three lists are stored and both indexes rebuilt from the TEM list. */
    method Init(timeline: seq<Beat>, population: seq<Entity>, measurementsList: seq<TimeEntityMeasurements>)
      modifies this
      ensures this.timeline == timeline && this.population == population && this.measurementsList == measurementsList
      ensures fileType == old(fileType)
      ensures Valid()
    {
      this.timeline := timeline;
      this.population := population;
      this.measurementsList := measurementsList;
      MapTEMs();
    }

    /** mapTEMs: one pass over the TEM list filling both indexes. */
    method MapTEMs()
      modifies this
      ensures Valid()
      ensures fileType == old(fileType) && timeline == old(timeline) && population == old(population)
      ensures measurementsList == old(measurementsList)
    {
      entityNameToTEMMap := map[];
      beatIdToTEMMap := map[];
      var i := 0;
      while i < |measurementsList|
        invariant 0 <= i <= |measurementsList|
        invariant fileType == old(fileType) && timeline == old(timeline) && population == old(population)
        invariant measurementsList == old(measurementsList)
        invariant entityNameToTEMMap == EntityIndex(measurementsList[..i])
        invariant beatIdToTEMMap == BeatIndex(measurementsList[..i])
      {
        var tem := measurementsList[i];
        var name, b := tem.entity.entityName, tem.beat.beatId;
        ghost var e0, b0 := entityNameToTEMMap, beatIdToTEMMap;
        assert measurementsList[..i + 1][..i] == measurementsList[..i];
        assert EntityIndex(measurementsList[..i + 1]) == e0[name := (if name in e0 then e0[name] else map[])[b := tem]];
        assert BeatIndex(measurementsList[..i + 1]) == b0[b := (if b in b0 then b0[b] else map[])[name := tem]];
        // a missing inner map is created empty, then the TEM is put into it
        var byBeat := if name in entityNameToTEMMap then entityNameToTEMMap[name] else map[];
        entityNameToTEMMap := entityNameToTEMMap[name := byBeat[b := tem]];
        var byName := if b in beatIdToTEMMap then beatIdToTEMMap[b] else map[];
        beatIdToTEMMap := beatIdToTEMMap[b := byName[name := tem]];
        i := i + 1;
      }
      assert measurementsList[..i] == measurementsList;
    }

    function GetNumberOfTEMs(): (n: nat)
      reads this
      ensures n == |measurementsList|
    {
      |measurementsList|
    }

    /** getTem: the indexed TEM, or None for the TEM whose fields are all null. */
    function GetTem(entity: Entity, beat: Beat): (r: Option<TimeEntityMeasurements>)
      reads this
      ensures r.Some? <==> entity.entityName in entityNameToTEMMap && beat.beatId in entityNameToTEMMap[entity.entityName]
      ensures r.Some? ==> r.value == entityNameToTEMMap[entity.entityName][beat.beatId]
    {
      if entity.entityName in entityNameToTEMMap && beat.beatId in entityNameToTEMMap[entity.entityName] then
        Some(entityNameToTEMMap[entity.entityName][beat.beatId])
      else None
    }

    /** getEntityByName: the first entity of the population with that name, or None for null. */
    function GetEntityByName(name: string): (r: Option<Entity>)
      reads this
      ensures r.None? <==> forall j :: 0 <= j < |population| ==> population[j].entityName != name
      ensures r.Some? ==> exists i :: 0 <= i < |population| && population[i] == r.value && r.value.entityName == name
                                        && forall j :: 0 <= j < i ==> population[j].entityName != name
    {
      var i := FirstNamed(population, name);
      if i == -1 then None else Some(population[i])
    }

    /** getBeat: the beat at that timeline position; None stands for the out-of-bounds exception. */
    function GetBeat(index: int): (r: Option<Beat>)
      reads this
      ensures r.Some? <==> 0 <= index < |timeline|
      ensures r.Some? ==> r.value == timeline[index]
    {
      if 0 <= index < |timeline| then Some(timeline[index]) else None
    }

    /** getTimelineAsString: each label followed by a tab, the last one by a newline instead. */
    method GetTimelineAsString() returns (s: string)
      ensures s == TimelineText(Labels(timeline))
    {
      ghost var labels := Labels(timeline);
      s := "";
      var i := 0;
      while i < |timeline|
        invariant 0 <= i <= |timeline|
        invariant i < |timeline| ==> s == Terminated(labels[..i], '\t')
        invariant i == |timeline| && i > 0 ==> s == Join(labels, '\t') + "\n"
        invariant |timeline| == 0 ==> s == ""
      {
        s := s + BeatLabel(timeline[i]);
        if i < |timeline| - 1 {
          s := s + "\t";
          TerminatedAppend(labels[..i], labels[i], '\t');
          assert labels[..i + 1] == labels[..i] + [labels[i]];
        } else {
          s := s + "\n";
          JoinAppendLast(labels[..i], labels[i], '\t');
          assert labels == labels[..i] + [labels[i]];
        }
        i := i + 1;
      }
    }

    /**
     * getMeasurementsAsString: one line per entity, in population order, with
     * the RAW value of the export aggregation at each beat of the timeline.
     */
    method GetMeasurementsAsString(fmt: real -> string) returns (s: string)
      ensures s == MeasurementsText(entityNameToTEMMap, population, timeline, MeasurementKey(RAW_VALUE, ExportAggregation(fileType)), fmt)
    {
      s := MeasurementsTextOf(entityNameToTEMMap, population, timeline, MeasurementKey(RAW_VALUE, ExportAggregation(fileType)), fmt);
    }

    /** getTimeEntityMeasurementAsString: the header, the timeline line and the entity lines. */
    method GetTimeEntityMeasurementAsString(fmt: real -> string) returns (s: string)
      ensures s == TEM_HEADER + "\t"
                   + TimelineText(Labels(timeline))
                   + MeasurementsText(entityNameToTEMMap, population, timeline, MeasurementKey(RAW_VALUE, ExportAggregation(fileType)), fmt)
    {
      var t := GetTimelineAsString();
      var m := GetMeasurementsAsString(fmt);
      s := TEM_HEADER + "\t" + t + m;
    }
  }

  /** With the indexes built, getTem finds the last TEM recorded for the pair, and None only when there is none. */
  lemma GetTemFindsLast(d: DataHandler, entity: Entity, beat: Beat)
    requires d.Valid()
    ensures d.GetTem(entity, beat).Some? <==> exists i :: 0 <= i < |d.measurementsList| && IsPair(d.measurementsList[i], entity.entityName, beat.beatId)
    ensures d.GetTem(entity, beat).Some? ==> d.GetTem(entity, beat).value == d.measurementsList[LastFor(d.measurementsList, entity.entityName, beat.beatId)]
  {
    EntityIndexIsLast(d.measurementsList, entity.entityName, beat.beatId);
  }
}
