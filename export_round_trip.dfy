/**
 * The TEM file DataHandler.getTimeEntityMeasurementAsString writes, read
 * back by CsvReader (Files.ReadLines) and SimpleLoader (SimpleLoading.LoadOf):
 * the timeline comes back beat by beat with the exported labels, and the
 * population comes back entity by entity, renumbered by line, as long as
 * no label, name or formatted value holds a tab or a line terminator.
 */
module ExportRoundTrip {
  import opened Wrappers
  import opened Kinds
  import opened Models
  import opened Text
  import opened Lists
  import opened Data
  import opened Files
  import opened SimpleRows
  import opened SimpleLoading

  /** Free of the field separator and of both line terminators. */
  predicate LineSafe(s: string) {
    '\t' !in s && '\n' !in s && '\r' !in s
  }

  /** An entity's exported line without its newline: its info, one field per beat, and the empty field after the last tab. */
  function EntityBody(index: map<string, map<int, TimeEntityMeasurements>>, e: Entity, timeline: seq<Beat>, k: MeasurementKey, fmt: real -> string): string
  {
    Join([EntityInfo(e)] + CellTexts(index, e, timeline, k, fmt) + [""], '\t')
  }

  /** The bodies of the population's lines, in population order. */
  function EntityBodies(index: map<string, map<int, TimeEntityMeasurements>>, population: seq<Entity>, timeline: seq<Beat>, k: MeasurementKey, fmt: real -> string): (r: seq<string>)
    ensures |r| == |population|
  {
    EachMapped(e => EntityBody(index, e, timeline, k, fmt), population)
  }

  lemma EntityBodiesAt(index: map<string, map<int, TimeEntityMeasurements>>, population: seq<Entity>, timeline: seq<Beat>, k: MeasurementKey, fmt: real -> string)
    ensures forall i :: 0 <= i < |population| ==> EntityBodies(index, population, timeline, k, fmt)[i] == EntityBody(index, population[i], timeline, k, fmt)
  {
    EachMappedAt(e => EntityBody(index, e, timeline, k, fmt), population);
  }

  /** An entity line is its body followed by the newline. */
  lemma EntityLineIsBody(index: map<string, map<int, TimeEntityMeasurements>>, e: Entity, timeline: seq<Beat>, k: MeasurementKey, fmt: real -> string)
    ensures EntityLine(index, e, timeline, k, fmt) == EntityBody(index, e, timeline, k, fmt) + "\n"
  {
    var front := [EntityInfo(e)] + CellTexts(index, e, timeline, k, fmt);
    JoinAppendLast(front, "\n", '\t');
    JoinAppendLast(front, "", '\t');
  }

  /** The measurement part of the export is the entity bodies, each followed by a newline. */
  lemma {:induction false} MeasurementsTerminated(index: map<string, map<int, TimeEntityMeasurements>>, population: seq<Entity>, timeline: seq<Beat>, k: MeasurementKey, fmt: real -> string)
    ensures MeasurementsText(index, population, timeline, k, fmt) == Terminated(EntityBodies(index, population, timeline, k, fmt), '\n')
    decreases |population|
  {
    if population != [] {
      var n := |population| - 1;
      var fb := EntityBodies(index, population[..n], timeline, k, fmt);
      var b := EntityBody(index, population[n], timeline, k, fmt);
      MeasurementsTerminated(index, population[..n], timeline, k, fmt);
      EntityLineIsBody(index, population[n], timeline, k, fmt);
      TerminatedAppend(fb, b, '\n');
    }
  }

  /** No part of an exported entity line holds a tab or a line terminator. */
  lemma EntityPartsSafe(index: map<string, map<int, TimeEntityMeasurements>>, e: Entity, timeline: seq<Beat>, k: MeasurementKey, fmt: real -> string)
    requires LineSafe(e.entityName)
    requires forall v :: LineSafe(fmt(v))
    ensures var parts := [EntityInfo(e)] + CellTexts(index, e, timeline, k, fmt) + [""];
      forall j :: 0 <= j < |parts| ==> LineSafe(parts[j])
  {
    var cells := CellTexts(index, e, timeline, k, fmt);
    var parts := [EntityInfo(e)] + cells + [""];
    IntToStringPlain(e.lifeDetails.birthBeatId, '\t');
    IntToStringPlain(e.lifeDetails.deathBeatId, '\t');
    IntToStringPlain(e.lifeDetails.birthBeatId, '\n');
    IntToStringPlain(e.lifeDetails.deathBeatId, '\n');
    IntToStringPlain(e.lifeDetails.birthBeatId, '\r');
    IntToStringPlain(e.lifeDetails.deathBeatId, '\r');
    assert LineSafe(EntityInfo(e));
    forall j | 0 <= j < |parts| ensures LineSafe(parts[j]) {
      if 1 <= j < |parts| - 1 {
        assert parts[j] == cells[j - 1];
      }
    }
  }

  /**
   * An exported entity line cut at its tabs: the entity's info first, then
   * at most one field per beat (split drops the trailing empty fields).
   */
  lemma EntityBodyFields(index: map<string, map<int, TimeEntityMeasurements>>, e: Entity, timeline: seq<Beat>, k: MeasurementKey, fmt: real -> string)
    requires LineSafe(e.entityName)
    requires forall v :: LineSafe(fmt(v))
    ensures '\n' !in EntityBody(index, e, timeline, k, fmt) && '\r' !in EntityBody(index, e, timeline, k, fmt)
    ensures var fields := Split(EntityBody(index, e, timeline, k, fmt), '\t');
      1 <= |fields| <= |timeline| + 1 && fields[0] == EntityInfo(e)
  {
    var parts := [EntityInfo(e)] + CellTexts(index, e, timeline, k, fmt) + [""];
    var body := EntityBody(index, e, timeline, k, fmt);
    EntityPartsSafe(index, e, timeline, k, fmt);
    JoinNoSep(parts, '\t', '\n');
    JoinNoSep(parts, '\t', '\r');
    PiecesOfJoin(parts, '\t');
    assert body[|parts[0]|] == '\t';
    var fields := DropTrailingEmpty(parts);
    assert Split(body, '\t') == fields;
    assert parts[0] != "";
    assert parts[|parts| - 1] == "";
  }

  /** The exported header line without its newline: the leading field and the beat labels, tab-separated. */
  function HeaderBody(timeline: seq<Beat>): string
  {
    Join([TEM_HEADER] + Labels(timeline), '\t')
  }

  /** The header's leading field holds no tab and no line terminator. */
  lemma LeadingFieldSafe()
    ensures LineSafe(TEM_HEADER)
  {
    assert TEM_HEADER == "{name, birthId, deathId, status}";
  }

  lemma HeaderPartsSafe(timeline: seq<Beat>)
    requires forall j :: 0 <= j < |timeline| ==> LineSafe(BeatLabel(timeline[j]))
    ensures var parts := [TEM_HEADER] + Labels(timeline);
      forall j :: 0 <= j < |parts| ==> LineSafe(parts[j])
  {
    var parts := [TEM_HEADER] + Labels(timeline);
    LeadingFieldSafe();
    forall j | 0 <= j < |parts| ensures LineSafe(parts[j]) {
      if j > 0 {
        assert parts[j] == BeatLabel(timeline[j - 1]);
      }
    }
  }

  /** The header line holds no line terminator. */
  lemma HeaderBodySafe(timeline: seq<Beat>)
    requires forall j :: 0 <= j < |timeline| ==> LineSafe(BeatLabel(timeline[j]))
    ensures '\n' !in HeaderBody(timeline) && '\r' !in HeaderBody(timeline)
  {
    var parts := [TEM_HEADER] + Labels(timeline);
    HeaderPartsSafe(timeline);
    JoinNoSep(parts, '\t', '\n');
    JoinNoSep(parts, '\t', '\r');
  }

  /** The header line cut at its tabs: the leading field, then the labels. */
  lemma HeaderBodyFields(timeline: seq<Beat>)
    requires forall j :: 0 <= j < |timeline| ==> LineSafe(BeatLabel(timeline[j]))
    requires timeline != [] ==> BeatLabel(timeline[|timeline| - 1]) != ""
    ensures Split(HeaderBody(timeline), '\t') == [TEM_HEADER] + Labels(timeline)
  {
    HeaderPartsSafe(timeline);
    SplitOfJoin([TEM_HEADER] + Labels(timeline), '\t');
  }

  /** The exported text is the header line and the entity bodies, each followed by a newline. */
  lemma ExportTextTerminated(index: map<string, map<int, TimeEntityMeasurements>>, population: seq<Entity>, timeline: seq<Beat>, k: MeasurementKey, fmt: real -> string)
    requires timeline != []
    ensures TEM_HEADER + "\t" + TimelineText(Labels(timeline)) + MeasurementsText(index, population, timeline, k, fmt)
            == Terminated([HeaderBody(timeline)] + EntityBodies(index, population, timeline, k, fmt), '\n')
  {
    var bodies := EntityBodies(index, population, timeline, k, fmt);
    var ls := [HeaderBody(timeline)] + bodies;
    var labels := Labels(timeline);
    var hparts := [TEM_HEADER] + labels;
    assert hparts[1..] == labels;
    assert HeaderBody(timeline) == TEM_HEADER + "\t" + Join(labels, '\t');
    MeasurementsTerminated(index, population, timeline, k, fmt);
    assert ls[1..] == bodies;
  }

  /**
   * The lines of the exported text are the header line and one line per
   * entity, when the timeline has a beat and no label, name or formatted
   * value holds a tab or a line terminator.
   */
  lemma ExportTextLines(index: map<string, map<int, TimeEntityMeasurements>>, population: seq<Entity>, timeline: seq<Beat>, k: MeasurementKey, fmt: real -> string)
    requires timeline != []
    requires forall j :: 0 <= j < |timeline| ==> LineSafe(BeatLabel(timeline[j]))
    requires forall i :: 0 <= i < |population| ==> LineSafe(population[i].entityName)
    requires forall v :: LineSafe(fmt(v))
    ensures TextLines(TEM_HEADER + "\t" + TimelineText(Labels(timeline)) + MeasurementsText(index, population, timeline, k, fmt))
            == [HeaderBody(timeline)] + EntityBodies(index, population, timeline, k, fmt)
  {
    var bodies := EntityBodies(index, population, timeline, k, fmt);
    var ls := [HeaderBody(timeline)] + bodies;
    ExportTextTerminated(index, population, timeline, k, fmt);
    HeaderBodySafe(timeline);
    EntityBodiesAt(index, population, timeline, k, fmt);
    forall i | 0 <= i < |ls| ensures '\n' !in ls[i] && '\r' !in ls[i] {
      if i > 0 {
        assert ls[i] == bodies[i - 1];
        EntityBodyFields(index, population[i - 1], timeline, k, fmt);
      }
    }
    TerminatedLines(ls);
  }

  /** Rows of at most one field more than the timeline has beats: the entity field and one value per beat. */
  predicate RowsWithin(rows: seq<seq<string>>, timeline: seq<Beat>) {
    forall i :: 0 <= i < |rows| ==> |rows[i]| <= |timeline| + 1
  }

  /**
   * Lines shaped like an export: a header of the leading field and the
   * labels, then one line per entity starting with its info and holding at
   * most one further field per beat.
   */
  predicate ExportShaped(lines: seq<seq<string>>, population: seq<Entity>, timeline: seq<Beat>) {
    lines != []
    && lines[0] == [TEM_HEADER] + Labels(timeline)
    && ExportedRows(lines[1..], population)
    && RowsWithin(lines[1..], timeline)
  }

  /**
   * The exported text cut into lines and fields: the header line is the
   * leading field and the labels, and line i + 1 starts with entity i's
   * info and has at most one further field per beat.
   */
  lemma ExportedLines(index: map<string, map<int, TimeEntityMeasurements>>, population: seq<Entity>, timeline: seq<Beat>, k: MeasurementKey, fmt: real -> string)
    requires timeline != []
    requires forall j :: 0 <= j < |timeline| ==> LineSafe(BeatLabel(timeline[j]))
    requires BeatLabel(timeline[|timeline| - 1]) != ""
    requires forall i :: 0 <= i < |population| ==> LineSafe(population[i].entityName)
    requires forall v :: LineSafe(fmt(v))
    ensures ExportShaped(ReadLines(TEM_HEADER + "\t" + TimelineText(Labels(timeline)) + MeasurementsText(index, population, timeline, k, fmt)), population, timeline)
  {
    var text := TEM_HEADER + "\t" + TimelineText(Labels(timeline)) + MeasurementsText(index, population, timeline, k, fmt);
    ExportTextLines(index, population, timeline, k, fmt);
    HeaderBodyFields(timeline);
    EntityLinesFields(text, index, population, timeline, k, fmt);
  }

  /** Lines read from a text whose lines are a header and the entity bodies: each entity line starts with the entity's info. */
  lemma EntityLinesFields(text: string, index: map<string, map<int, TimeEntityMeasurements>>, population: seq<Entity>, timeline: seq<Beat>, k: MeasurementKey, fmt: real -> string)
    requires |TextLines(text)| == |population| + 1
    requires TextLines(text)[1..] == EntityBodies(index, population, timeline, k, fmt)
    requires forall i :: 0 <= i < |population| ==> LineSafe(population[i].entityName)
    requires forall v :: LineSafe(fmt(v))
    ensures ExportedRows(ReadLines(text)[1..], population) && RowsWithin(ReadLines(text)[1..], timeline)
  {
    var rows := ReadLines(text)[1..];
    var bodies := EntityBodies(index, population, timeline, k, fmt);
    RestFields(text, bodies);
    EntityBodiesAt(index, population, timeline, k, fmt);
    forall i | 0 <= i < |population| ensures 1 <= |rows[i]| <= |timeline| + 1 && rows[i][0] == EntityInfo(population[i]) {
      EntityBodyFields(index, population[i], timeline, k, fmt);
    }
  }

  /**
   * Lines shaped like an export load when every label parses as a date: the
   * timeline is the labels numbered by position and the entities are the
   * encoded ones numbered by line.
   */
  lemma ReloadOfLines(lines: seq<seq<string>>, population: seq<Entity>, timeline: seq<Beat>,
                      parseDateTime: string -> Option<string>, parseNumber: string -> Option<real>)
    requires ExportShaped(lines, population, timeline)
    requires forall j :: 0 <= j < |timeline| ==> parseDateTime(FullDateTimeText(BeatLabel(timeline[j]))).Some?
    ensures var r := LoadOf(lines, parseDateTime, parseNumber);
      r.Some?
      && |r.value.timeline| == |timeline|
      && (forall j :: 0 <= j < |timeline| ==>
            r.value.timeline[j] == Beat(j, BeatLabel(timeline[j]), parseDateTime(FullDateTimeText(BeatLabel(timeline[j])))))
      && |r.value.entities| == |population|
      && (forall i :: 0 <= i < |population| ==>
            r.value.entities[i] == Entity(i, population[i].entityName,
              LifeFromSpan(population[i].lifeDetails.birthBeatId, population[i].lifeDetails.deathBeatId, population[i].lifeDetails.isAlive)))
  {
    HeaderReload(lines[0], timeline, parseDateTime);
    var tl := HeaderTimeline(lines[0], parseDateTime).value;
    RowsReload(lines, population, timeline, tl, parseNumber);
    LoadOfParts(lines, tl, parseDateTime, parseNumber);
    LoadExportedEntities(lines, population, parseDateTime, parseNumber);
  }

  /** load succeeds with the header's timeline when the header and every data line parse. */
  lemma LoadOfParts(lines: seq<seq<string>>, tl: seq<Beat>, parseDateTime: string -> Option<string>, parseNumber: string -> Option<real>)
    requires lines != [] && HeaderTimeline(lines[0], parseDateTime) == Some(tl)
    requires RowsOf(lines[1..], tl, parseNumber).Some?
    ensures LoadOf(lines, parseDateTime, parseNumber).Some? && LoadOf(lines, parseDateTime, parseNumber).value.timeline == tl
  {
  }

  /** The exported header, read by parseTimeLine: the labels become beats 0, 1, ... with their dates. */
  lemma HeaderReload(header: seq<string>, timeline: seq<Beat>, parseDateTime: string -> Option<string>)
    requires header == [TEM_HEADER] + Labels(timeline)
    requires forall j :: 0 <= j < |timeline| ==> parseDateTime(FullDateTimeText(BeatLabel(timeline[j]))).Some?
    ensures var tl := HeaderTimeline(header, parseDateTime);
      tl.Some? && |tl.value| == |timeline|
      && forall j :: 0 <= j < |timeline| ==>
           tl.value[j] == Beat(j, BeatLabel(timeline[j]), parseDateTime(FullDateTimeText(BeatLabel(timeline[j]))))
  {
    forall i | 1 <= i < |header| ensures parseDateTime(FullDateTimeText(header[i])).Some? {
      assert header[i] == BeatLabel(timeline[i - 1]);
    }
    var tl := HeaderTimeline(header, parseDateTime).value;
    forall j | 0 <= j < |timeline| ensures tl[j] == Beat(j, BeatLabel(timeline[j]), parseDateTime(FullDateTimeText(BeatLabel(timeline[j])))) {
      assert header[j + 1] == BeatLabel(timeline[j]);
    }
  }

  /** Data lines that start with encoded entities and hold at most one value per beat all load. */
  lemma RowsReload(lines: seq<seq<string>>, population: seq<Entity>, timeline: seq<Beat>, tl: seq<Beat>, parseNumber: string -> Option<real>)
    requires ExportShaped(lines, population, timeline) && |tl| == |timeline|
    ensures RowsOf(lines[1..], tl, parseNumber).Some?
  {
    var rows := lines[1..];
    forall i | 0 <= i < |rows| ensures LineResult(rows[i], i, tl, parseNumber).Some? {
      RowReload(rows[i], population[i], i, tl, parseNumber);
    }
    RowsOfAllParse(rows, tl, parseNumber);
  }

  /** A data line starting with an encoded entity and holding at most one value per beat loads. */
  lemma RowReload(row: seq<string>, e: Entity, entityId: int, tl: seq<Beat>, parseNumber: string -> Option<real>)
    requires 1 <= |row| <= |tl| + 1 && row[0] == EntityInfo(e)
    ensures LineResult(row, entityId, tl, parseNumber).Some?
  {
    HeadTail(row);
    ExportedRow(e, row[1..], entityId, |tl|);
    var cells := row[1..];
    var entity := RowAfter(row, entityId, |tl|, 1, "").value.entity;
    assert RowAfter(row, entityId, |tl|, 1, "").value.rowValue == cells;
    assert RowTEMs(entity, cells, tl, parseNumber, 0, 0.0).Some?;
  }

  /**
   * The TEM export read back by load: when the timeline has a beat, no
   * label, name or formatted value holds a tab or a line terminator, the
   * last label is not empty and every label parses as a date, the load
   * succeeds, beat j is numbered j and carries the exported label of beat j,
   * and entity i is the population's entity i renumbered as i, with its
   * name, birth, death and alive flag. The entity field is read as the
   * corrected parseEntity reads it (SimpleRows.EntityInfoOf).
   */
  lemma ExportReloads(index: map<string, map<int, TimeEntityMeasurements>>, population: seq<Entity>, timeline: seq<Beat>, k: MeasurementKey, fmt: real -> string,
                      parseDateTime: string -> Option<string>, parseNumber: string -> Option<real>)
    requires timeline != []
    requires forall j :: 0 <= j < |timeline| ==> LineSafe(BeatLabel(timeline[j]))
    requires BeatLabel(timeline[|timeline| - 1]) != ""
    requires forall j :: 0 <= j < |timeline| ==> parseDateTime(FullDateTimeText(BeatLabel(timeline[j]))).Some?
    requires forall i :: 0 <= i < |population| ==> LineSafe(population[i].entityName)
    requires forall v :: LineSafe(fmt(v))
    ensures var r := LoadOf(ReadLines(TEM_HEADER + "\t" + TimelineText(Labels(timeline)) + MeasurementsText(index, population, timeline, k, fmt)),
                            parseDateTime, parseNumber);
      r.Some?
      && |r.value.timeline| == |timeline|
      && (forall j :: 0 <= j < |timeline| ==>
            r.value.timeline[j] == Beat(j, BeatLabel(timeline[j]), parseDateTime(FullDateTimeText(BeatLabel(timeline[j])))))
      && |r.value.entities| == |population|
      && (forall i :: 0 <= i < |population| ==>
            r.value.entities[i] == Entity(i, population[i].entityName,
              LifeFromSpan(population[i].lifeDetails.birthBeatId, population[i].lifeDetails.deathBeatId, population[i].lifeDetails.isAlive)))
  {
    var lines := ReadLines(TEM_HEADER + "\t" + TimelineText(Labels(timeline)) + MeasurementsText(index, population, timeline, k, fmt));
    ExportedLines(index, population, timeline, k, fmt);
    ReloadOfLines(lines, population, timeline, parseDateTime, parseNumber);
  }

  /**
   * Saving a data handler's TEMs and loading the saved text into a new
   * data handler: the load succeeds, the new timeline has the saved labels,
   * beat by beat, and the new population the saved entities, each
   * renumbered by its position, under the conditions of ExportReloads.
   */
  method ExportThenLoad(d: DataHandler, fmt: real -> string, parseDateTime: string -> Option<string>, parseNumber: string -> Option<real>)
    returns (reloaded: Option<DataHandler>)
    requires d.timeline != []
    requires forall j :: 0 <= j < |d.timeline| ==> LineSafe(BeatLabel(d.timeline[j]))
    requires BeatLabel(d.timeline[|d.timeline| - 1]) != ""
    requires forall j :: 0 <= j < |d.timeline| ==> parseDateTime(FullDateTimeText(BeatLabel(d.timeline[j]))).Some?
    requires forall i :: 0 <= i < |d.population| ==> LineSafe(d.population[i].entityName)
    requires forall v :: LineSafe(fmt(v))
    ensures reloaded.Some?
    ensures |reloaded.value.timeline| == |d.timeline|
    ensures forall j :: 0 <= j < |d.timeline| ==>
      reloaded.value.timeline[j] == Beat(j, BeatLabel(d.timeline[j]), parseDateTime(FullDateTimeText(BeatLabel(d.timeline[j]))))
    ensures |reloaded.value.population| == |d.population|
    ensures forall i :: 0 <= i < |d.population| ==>
      reloaded.value.population[i] == Entity(i, d.population[i].entityName,
        LifeFromSpan(d.population[i].lifeDetails.birthBeatId, d.population[i].lifeDetails.deathBeatId, d.population[i].lifeDetails.isAlive))
  {
    var text := d.GetTimeEntityMeasurementAsString(fmt);
    ExportReloads(d.entityNameToTEMMap, d.population, d.timeline, MeasurementKey(RAW_VALUE, ExportAggregation(d.fileType)), fmt, parseDateTime, parseNumber);
    reloaded := Load(ReadLines(text), parseDateTime, parseNumber);
  }
}
