/**
 * SimpleLoader: a simple CSV or TSV file, already cut into lines of fields,
 * read into a timeline, a population and the measurements of every entity at
 * every beat. The first line holds the beat labels after one leading field;
 * every other line is one entity, parsed by SimpleRowParser, whose values
 * give a TEM per filled column with the raw value and, from column 1 on, the
 * change since the previous value. Reading the file, parsing dates and
 * parsing numbers are done elsewhere and enter as parameters.
 */
module SimpleLoading {
  import opened Wrappers
  import opened Kinds
  import opened Models
  import opened Text
  import opened Lists
  import opened Data
  import opened SimpleRows

  // ----- parseTimeLine and formatToFullDateTime -----

  /** The text handed to the "yyyy-MM-dd HH:mm:ss" date parser: a four-character label is read as the first second of that year. */
  function FullDateTimeText(beatLabel: string): string
  {
    if |beatLabel| == 4 then beatLabel + "-01-01 00:00:00" else beatLabel
  }

  /**
   * parseTimeLine: the header's fields after the first become beats 0, 1, ...
   * with their dates; None when a label does not parse as a date, where
   * LocalDateTime.parse raises.
   */
  function HeaderTimeline(header: seq<string>, parseDateTime: string -> Option<string>): (r: Option<seq<Beat>>)
    ensures r.Some? <==> forall i :: 1 <= i < |header| ==> parseDateTime(FullDateTimeText(header[i])).Some?
    ensures r.Some? ==> (|r.value| == (if |header| == 0 then 0 else |header| - 1)
      && forall k :: 0 <= k < |r.value| ==> r.value[k] == Beat(k, header[k + 1], parseDateTime(FullDateTimeText(header[k + 1]))))
    decreases |header|
  {
    if |header| <= 1 then Some([])
    else
      var n := |header| - 1;
      var front := HeaderTimeline(header[..n], parseDateTime);
      var date := parseDateTime(FullDateTimeText(header[n]));
      if front.None? || date.None? then None
      else Some(front.value + [Beat(n - 1, header[n], date)])
  }

  /** The beats of a timeline read from a header are numbered by position. */
  lemma HeaderBeatIds(header: seq<string>, parseDateTime: string -> Option<string>)
    requires HeaderTimeline(header, parseDateTime).Some?
    ensures var t := HeaderTimeline(header, parseDateTime).value;
      forall k :: 0 <= k < |t| ==> t[k].beatId == k && t[k].rawDate == header[k + 1] && t[k].date.Some?
  {
  }

  method ParseTimeLine(header: seq<string>, parseDateTime: string -> Option<string>) returns (timeline: Option<seq<Beat>>)
    ensures timeline == HeaderTimeline(header, parseDateTime)
  {
    var beats: seq<Beat> := [];
    var i := 1;
    while i < |header|
      invariant 1 <= i <= (if |header| == 0 then 1 else |header|)
      invariant |beats| == i - 1
      invariant forall k :: 0 <= k < |beats| ==> beats[k] == Beat(k, header[k + 1], parseDateTime(FullDateTimeText(header[k + 1])))
      invariant forall k :: 1 <= k < i ==> parseDateTime(FullDateTimeText(header[k])).Some?
    {
      var date := parseDateTime(FullDateTimeText(header[i]));
      if date.None? {
        return None;
      }
      beats := beats + [Beat(i - 1, header[i], date)];
      i := i + 1;
    }
    assert HeaderTimeline(header, parseDateTime).value == beats;
    timeline := Some(beats);
  }

  // ----- parseMeasurements -----

  function Pow2(n: nat): (r: real)
    ensures r >= 1.0
  {
    if n == 0 then 1.0 else 2.0 * Pow2(n - 1)
  }

  /** Double.MIN_NORMAL, the smallest positive normal double: two to the power -1022. */
  const MinNormal: real := 1.0 / Pow2(1022)

  /** What a filled cell is read as: the number the parser finds, or -Double.MIN_NORMAL when it finds none. */
  function CellValue(cell: string, parseNumber: string -> Option<real>): real
  {
    match parseNumber(cell)
    case Some(v) => v
    case None => -MinNormal
  }

  /** A list put in front of an optional list. */
  function Prefixed<T>(front: seq<T>, rest: Option<seq<T>>): Option<seq<T>>
  {
    match rest
    case None => None
    case Some(s) => Some(front + s)
  }

  lemma PrefixedNothing<T>(rest: Option<seq<T>>)
    ensures Prefixed([], rest) == rest
  {
    if rest.Some? {
      assert [] + rest.value == rest.value;
    }
  }

  lemma PrefixedTwice<T>(a: seq<T>, b: seq<T>, rest: Option<seq<T>>)
    ensures Prefixed(a, Prefixed(b, rest)) == Prefixed(a + b, rest)
  {
    if rest.Some? {
      AppendAssoc(a, b, rest.value);
    }
  }

  /**
   * The TEM of a filled column j: the entity at beat j with the raw value
   * and, except at column 0, the change since `previous`.
   */
  function CellTEM(e: Entity, values: seq<string>, timeline: seq<Beat>, parseNumber: string -> Option<real>, j: int, previous: real): TimeEntityMeasurements
    requires 0 <= j < |values| && j < |timeline|
  {
    var v := CellValue(values[j], parseNumber);
    TEM(e, timeline[j], [NewMeasurement(v, RAW_VALUE, NO_AGGREGATION)] + (if j != 0 then [NewMeasurement(v - previous, DELTA_VALUE, NO_AGGREGATION)] else []))
  }

  /**
   * The TEMs of a row's values from column i on, `previous` being the last
   * value read at a column other than 0 (0 before any); None when a filled
   * column has no beat, where timeLine.get raises.
   */
  function RowTEMs(e: Entity, values: seq<string>, timeline: seq<Beat>, parseNumber: string -> Option<real>, i: nat, previous: real): (r: Option<seq<TimeEntityMeasurements>>)
    requires i <= |values|
    ensures r.Some? <==> forall j :: i <= j < |values| && !IsBlank(values[j]) ==> j < |timeline|
    ensures r.Some? ==> forall t :: t in r.value ==> t.entity == e && t.beat in timeline
    decreases |values| - i
  {
    if i == |values| then Some([])
    else if IsBlank(values[i]) then RowTEMs(e, values, timeline, parseNumber, i + 1, previous)
    else if i >= |timeline| then None
    else
      var next := if i != 0 then CellValue(values[i], parseNumber) else previous;
      Prefixed([CellTEM(e, values, timeline, parseNumber, i, previous)], RowTEMs(e, values, timeline, parseNumber, i + 1, next))
  }

  /** The filled columns from i on, in order. */
  function FilledColumns(values: seq<string>, i: nat): (r: seq<int>)
    requires i <= |values|
    ensures forall k :: 0 <= k < |r| ==> i <= r[k] < |values| && !IsBlank(values[r[k]])
    ensures forall k, l :: 0 <= k < l < |r| ==> r[k] < r[l]
    ensures forall j :: i <= j < |values| && !IsBlank(values[j]) ==> j in r
    decreases |values| - i
  {
    if i == |values| then []
    else if IsBlank(values[i]) then FilledColumns(values, i + 1)
    else [i] + FilledColumns(values, i + 1)
  }

  /** The value the change at the k-th filled column is taken against: the previous filled column's, unless that is column 0 or there is none. */
  function PreviousOf(values: seq<string>, cols: seq<int>, k: int, parseNumber: string -> Option<real>, start: real): real
    requires 0 <= k < |cols| && forall m :: 0 <= m < |cols| ==> 0 <= cols[m] < |values|
  {
    if k > 0 && cols[k - 1] != 0 then CellValue(values[cols[k - 1]], parseNumber) else start
  }

  /** Past the first filled column, the value a change is taken against is the one the rest of the row starts from. */
  lemma PreviousShift(values: seq<string>, i: int, tail: seq<int>, k: int, parseNumber: string -> Option<real>, previous: real)
    requires 0 <= i < |values| && 1 <= k <= |tail|
    requires forall m :: 0 <= m < |tail| ==> i < tail[m] < |values|
    ensures var cols := [i] + tail;
      var next := if i != 0 then CellValue(values[i], parseNumber) else previous;
      cols[k] == tail[k - 1] && PreviousOf(values, cols, k, parseNumber, previous) == PreviousOf(values, tail, k - 1, parseNumber, next)
  {
    var cols := [i] + tail;
    assert cols[k - 1] == if k == 1 then i else tail[k - 2];
  }

  /** The TEMs match the filled columns one for one, each as CellTEM builds it. */
  ghost predicate TEMsOfColumns(ts: seq<TimeEntityMeasurements>, cols: seq<int>, e: Entity, values: seq<string>, timeline: seq<Beat>, parseNumber: string -> Option<real>, start: real)
    requires forall m :: 0 <= m < |cols| ==> 0 <= cols[m] < |values|
  {
    |ts| == |cols| && forall k :: 0 <= k < |ts| ==> (cols[k] < |timeline|
      && ts[k] == CellTEM(e, values, timeline, parseNumber, cols[k], PreviousOf(values, cols, k, parseNumber, start)))
  }

  /** A filled column puts its TEM in front of those of the rest of the row. */
  lemma FilledColumnStep(e: Entity, values: seq<string>, timeline: seq<Beat>, parseNumber: string -> Option<real>, i: nat, previous: real)
    requires i < |values| && !IsBlank(values[i]) && RowTEMs(e, values, timeline, parseNumber, i, previous).Some?
    requires var next := if i != 0 then CellValue(values[i], parseNumber) else previous;
      TEMsOfColumns(RowTEMs(e, values, timeline, parseNumber, i + 1, next).value, FilledColumns(values, i + 1), e, values, timeline, parseNumber, next)
    ensures TEMsOfColumns(RowTEMs(e, values, timeline, parseNumber, i, previous).value, FilledColumns(values, i), e, values, timeline, parseNumber, previous)
  {
    var next := if i != 0 then CellValue(values[i], parseNumber) else previous;
    var ts := RowTEMs(e, values, timeline, parseNumber, i, previous).value;
    var rest := RowTEMs(e, values, timeline, parseNumber, i + 1, next).value;
    var cols := FilledColumns(values, i);
    var tail := FilledColumns(values, i + 1);
    assert ts == [CellTEM(e, values, timeline, parseNumber, i, previous)] + rest;
    assert cols == [i] + tail;
    assert i < |timeline|;
    ColumnsCons(rest, tail, e, values, timeline, parseNumber, i, previous);
  }

  /** The TEM of column i in front of those of later columns matches column i in front of them. */
  lemma ColumnsCons(rest: seq<TimeEntityMeasurements>, tail: seq<int>, e: Entity, values: seq<string>, timeline: seq<Beat>, parseNumber: string -> Option<real>, i: nat, previous: real)
    requires i < |values| && i < |timeline|
    requires forall m :: 0 <= m < |tail| ==> i < tail[m] < |values|
    requires TEMsOfColumns(rest, tail, e, values, timeline, parseNumber, if i != 0 then CellValue(values[i], parseNumber) else previous)
    ensures TEMsOfColumns([CellTEM(e, values, timeline, parseNumber, i, previous)] + rest, [i] + tail, e, values, timeline, parseNumber, previous)
  {
    var ts := [CellTEM(e, values, timeline, parseNumber, i, previous)] + rest;
    var cols := [i] + tail;
    forall k | 0 <= k < |ts|
      ensures cols[k] < |timeline|
      ensures ts[k] == CellTEM(e, values, timeline, parseNumber, cols[k], PreviousOf(values, cols, k, parseNumber, previous))
    {
      if k >= 1 {
        PreviousShift(values, i, tail, k, parseNumber, previous);
        assert ts[k] == rest[k - 1];
      }
    }
  }

  /**
   * One TEM per filled column, in column order, each at the column's beat
   * with the cell's raw value and, except at column 0, the change since the
   * previous filled column (the start value for the first one, and for the
   * one after column 0, whose value is never remembered).
   */
  lemma {:induction false} RowTEMsColumns(e: Entity, values: seq<string>, timeline: seq<Beat>, parseNumber: string -> Option<real>, i: nat, previous: real)
    requires i <= |values| && RowTEMs(e, values, timeline, parseNumber, i, previous).Some?
    ensures TEMsOfColumns(RowTEMs(e, values, timeline, parseNumber, i, previous).value, FilledColumns(values, i), e, values, timeline, parseNumber, previous)
    decreases |values| - i
  {
    if i < |values| {
      if IsBlank(values[i]) {
        RowTEMsColumns(e, values, timeline, parseNumber, i + 1, previous);
      } else {
        var next := if i != 0 then CellValue(values[i], parseNumber) else previous;
        RowTEMsColumns(e, values, timeline, parseNumber, i + 1, next);
        FilledColumnStep(e, values, timeline, parseNumber, i, previous);
      }
    }
  }

  method ParseMeasurements(e: Entity, rowData: seq<string>, timeline: seq<Beat>, parseNumber: string -> Option<real>)
    returns (tems: Option<seq<TimeEntityMeasurements>>)
    ensures tems == RowTEMs(e, rowData, timeline, parseNumber, 0, 0.0)
  {
    var acc: seq<TimeEntityMeasurements> := [];
    var previous := 0.0;
    var i := 0;
    PrefixedNothing(RowTEMs(e, rowData, timeline, parseNumber, 0, 0.0));
    while i < |rowData|
      invariant 0 <= i <= |rowData|
      invariant Prefixed(acc, RowTEMs(e, rowData, timeline, parseNumber, i, previous)) == RowTEMs(e, rowData, timeline, parseNumber, 0, 0.0)
    {
      if !IsBlank(rowData[i]) {
        if i >= |timeline| {
          return None;
        }
        var parsed := parseNumber(rowData[i]);
        var value := if parsed.Some? then parsed.value else -MinNormal;
        var ms := [NewMeasurement(value, RAW_VALUE, NO_AGGREGATION)];
        var tem := CellTEM(e, rowData, timeline, parseNumber, i, previous);
        if i != 0 {
          ms := ms + [NewMeasurement(value - previous, DELTA_VALUE, NO_AGGREGATION)];
          previous := value;
        }
        assert TEM(e, timeline[i], ms) == tem;
        PrefixedTwice(acc, [tem], RowTEMs(e, rowData, timeline, parseNumber, i + 1, previous));
        acc := acc + [TEM(e, timeline[i], ms)];
      }
      i := i + 1;
    }
    assert acc + [] == acc;
    return Some(acc);
  }

  // ----- load -----

  /** One data line: the entity the parser builds and its TEMs, or None where the line raises. */
  function LineResult(line: seq<string>, entityId: int, timeline: seq<Beat>, parseNumber: string -> Option<real>): (r: Option<(Entity, seq<TimeEntityMeasurements>)>)
    ensures r.Some? ==> RowAfter(line, entityId, |timeline|, 1, "").Some? && r.value.0 == RowAfter(line, entityId, |timeline|, 1, "").value.entity
    ensures r.Some? ==> r.value.0.entityId == entityId && forall t :: t in r.value.1 ==> t.entity == r.value.0 && t.beat in timeline
  {
    match RowAfter(line, entityId, |timeline|, 1, "")
    case None => None
    case Some(row) =>
      match RowTEMs(row.entity, row.rowValue, timeline, parseNumber, 0, 0.0)
      case None => None
      case Some(tems) => Some((row.entity, tems))
  }

  /** The body of load's loop for a data line: a fresh row parser, then parseMeasurements on what it leaves. */
  method LoadLine(line: seq<string>, entityId: int, timeline: seq<Beat>, parseNumber: string -> Option<real>)
    returns (r: Option<(Entity, seq<TimeEntityMeasurements>)>)
    ensures r == LineResult(line, entityId, timeline, parseNumber)
  {
    var rowHandler := new SimpleRowParser(line, entityId);
    var ok := rowHandler.SplitNameAndValue(|timeline|);
    if !ok {
      return None;
    }
    var tems := ParseMeasurements(rowHandler.entity.value, rowHandler.rowValue, timeline, parseNumber);
    if tems.None? {
      return None;
    }
    return Some((rowHandler.entity.value, tems.value));
  }

  /** The entities and TEMs of the data lines, the line at position k being entity k; None when a line raises. */
  function RowsOf(rows: seq<seq<string>>, timeline: seq<Beat>, parseNumber: string -> Option<real>): Option<(seq<Entity>, seq<TimeEntityMeasurements>)>
  {
    if rows == [] then Some(([], []))
    else
      var n := |rows| - 1;
      var front := RowsOf(rows[..n], timeline, parseNumber);
      var line := LineResult(rows[n], n, timeline, parseNumber);
      if front.None? || line.None? then None
      else Some((front.value.0 + [line.value.0], front.value.1 + line.value.1))
  }

  /** Entity k is what line k parses to. */
  lemma {:induction false} RowsOfEntities(rows: seq<seq<string>>, timeline: seq<Beat>, parseNumber: string -> Option<real>)
    requires RowsOf(rows, timeline, parseNumber).Some?
    ensures var es := RowsOf(rows, timeline, parseNumber).value.0;
      |es| == |rows|
      && forall k :: 0 <= k < |rows| ==> (LineResult(rows[k], k, timeline, parseNumber).Some?
        && es[k] == LineResult(rows[k], k, timeline, parseNumber).value.0)
    decreases |rows|
  {
    if rows != [] {
      var n := |rows| - 1;
      RowsOfEntities(rows[..n], timeline, parseNumber);
      var front := RowsOf(rows[..n], timeline, parseNumber).value.0;
      var es := RowsOf(rows, timeline, parseNumber).value.0;
      assert es == front + [LineResult(rows[n], n, timeline, parseNumber).value.0];
      forall k | 0 <= k < |rows|
        ensures LineResult(rows[k], k, timeline, parseNumber).Some? && es[k] == LineResult(rows[k], k, timeline, parseNumber).value.0
      {
        if k < n {
          assert es[k] == front[k];
          assert rows[..n][k] == rows[k];
        }
      }
    }
  }

  /** Every TEM belongs to a loaded entity and to a beat of the timeline. */
  lemma {:induction false} RowsOfTEMs(rows: seq<seq<string>>, timeline: seq<Beat>, parseNumber: string -> Option<real>)
    requires RowsOf(rows, timeline, parseNumber).Some?
    ensures var r := RowsOf(rows, timeline, parseNumber).value;
      forall t :: t in r.1 ==> t.entity in r.0 && t.beat in timeline
    decreases |rows|
  {
    if rows != [] {
      var n := |rows| - 1;
      RowsOfTEMs(rows[..n], timeline, parseNumber);
      var front := RowsOf(rows[..n], timeline, parseNumber).value;
      var line := LineResult(rows[n], n, timeline, parseNumber).value;
      var r := RowsOf(rows, timeline, parseNumber).value;
      assert r.0 == front.0 + [line.0] && r.1 == front.1 + line.1;
      forall t | t in r.1
        ensures t.entity in r.0 && t.beat in timeline
      {
        if t in front.1 {
          assert t.entity in front.0;
        } else {
          assert t in line.1;
        }
      }
    }
  }

  lemma RowsOfStep(rows: seq<seq<string>>, k: int, timeline: seq<Beat>, parseNumber: string -> Option<real>)
    requires 0 <= k < |rows|
    ensures var front := RowsOf(rows[..k], timeline, parseNumber);
      var line := LineResult(rows[k], k, timeline, parseNumber);
      RowsOf(rows[..k + 1], timeline, parseNumber)
        == if front.None? || line.None? then None else Some((front.value.0 + [line.value.0], front.value.1 + line.value.1))
  {
    assert rows[..k + 1][..k] == rows[..k];
  }

  lemma {:induction false} RowsOfStaysNone(rows: seq<seq<string>>, k: int, timeline: seq<Beat>, parseNumber: string -> Option<real>)
    requires 0 <= k <= |rows| && RowsOf(rows[..k], timeline, parseNumber).None?
    ensures RowsOf(rows, timeline, parseNumber).None?
    decreases |rows| - k
  {
    if k < |rows| {
      RowsOfStep(rows, k, timeline, parseNumber);
      RowsOfStaysNone(rows, k + 1, timeline, parseNumber);
    } else {
      assert rows[..k] == rows;
    }
  }

  /** When every data line parses, so do all of them together. */
  lemma {:induction false} RowsOfAllParse(rows: seq<seq<string>>, timeline: seq<Beat>, parseNumber: string -> Option<real>)
    requires forall k :: 0 <= k < |rows| ==> LineResult(rows[k], k, timeline, parseNumber).Some?
    ensures RowsOf(rows, timeline, parseNumber).Some?
    decreases |rows|
  {
    if rows != [] {
      var n := |rows| - 1;
      PrefixLinesParse(rows, n, timeline, parseNumber);
      RowsOfAllParse(rows[..n], timeline, parseNumber);
      assert LineResult(rows[n], n, timeline, parseNumber).Some?;
    }
  }

  /** The lines of a prefix parse when all the lines do. */
  lemma PrefixLinesParse(rows: seq<seq<string>>, n: nat, timeline: seq<Beat>, parseNumber: string -> Option<real>)
    requires n <= |rows|
    requires forall k :: 0 <= k < |rows| ==> LineResult(rows[k], k, timeline, parseNumber).Some?
    ensures forall k :: 0 <= k < n ==> LineResult(rows[..n][k], k, timeline, parseNumber).Some?
  {
    forall k | 0 <= k < n ensures LineResult(rows[..n][k], k, timeline, parseNumber).Some? {
      assert rows[..n][k] == rows[k];
    }
  }

  /** What load hands to the data handler: the timeline, the population and the TEMs. */
  datatype LoadedData = LoadedData(timeline: seq<Beat>, entities: seq<Entity>, tems: seq<TimeEntityMeasurements>)

  /**
   * load: the header line gives the timeline and every further line an
   * entity, numbered from 0, and its TEMs; None when any line raises.
   */
  function LoadOf(lines: seq<seq<string>>, parseDateTime: string -> Option<string>, parseNumber: string -> Option<real>): Option<LoadedData>
  {
    if lines == [] then Some(LoadedData([], [], []))
    else
      match HeaderTimeline(lines[0], parseDateTime)
      case None => None
      case Some(timeline) =>
        match RowsOf(lines[1..], timeline, parseNumber)
        case None => None
        case Some(rows) => Some(LoadedData(timeline, rows.0, rows.1))
  }

  /**
   * What load gives: the header's timeline, one entity per data line
   * numbered by line, and TEMs that all belong to a loaded entity and to a
   * beat of the timeline.
   */
  lemma LoadOfMeaning(lines: seq<seq<string>>, parseDateTime: string -> Option<string>, parseNumber: string -> Option<real>)
    requires LoadOf(lines, parseDateTime, parseNumber).Some?
    ensures var r := LoadOf(lines, parseDateTime, parseNumber).value;
      (lines != [] ==> HeaderTimeline(lines[0], parseDateTime) == Some(r.timeline))
      && |r.entities| == (if lines == [] then 0 else |lines| - 1)
      && (forall k :: 0 <= k < |r.entities| ==> r.entities[k].entityId == k)
      && (forall t :: t in r.tems ==> t.entity in r.entities && t.beat in r.timeline)
  {
    if lines != [] {
      var timeline := LoadOf(lines, parseDateTime, parseNumber).value.timeline;
      RowsOfEntities(lines[1..], timeline, parseNumber);
      RowsOfTEMs(lines[1..], timeline, parseNumber);
    }
  }

  /** Data lines that start, one by one, with the entities the TEM exporter encoded. */
  predicate ExportedRows(rows: seq<seq<string>>, es: seq<Entity>) {
    |rows| == |es| && forall k :: 0 <= k < |es| ==> |rows[k]| >= 1 && rows[k][0] == EntityInfo(es[k])
  }

  /**
   * A file whose data lines start with the entities the TEM exporter
   * encoded loads those entities again, renumbered by line, with their
   * names, births, deaths and alive flags. The entity field is read as the
   * corrected parseEntity reads it (SimpleRows.EntityInfoOf); as written, a
   * name holding a comma does not read back (SimpleRows.EntityInfoAsWritten).
   */
  lemma LoadExportedEntities(lines: seq<seq<string>>, es: seq<Entity>, parseDateTime: string -> Option<string>, parseNumber: string -> Option<real>)
    requires lines != [] && ExportedRows(lines[1..], es)
    requires LoadOf(lines, parseDateTime, parseNumber).Some?
    ensures var loaded := LoadOf(lines, parseDateTime, parseNumber).value.entities;
      |loaded| == |es| && forall k :: 0 <= k < |es| ==> loaded[k] == Entity(k, es[k].entityName,
        LifeFromSpan(es[k].lifeDetails.birthBeatId, es[k].lifeDetails.deathBeatId, es[k].lifeDetails.isAlive))
  {
    var r := LoadOf(lines, parseDateTime, parseNumber).value;
    var rows := lines[1..];
    assert HeaderTimeline(lines[0], parseDateTime) == Some(r.timeline);
    assert RowsOf(rows, r.timeline, parseNumber).value.0 == r.entities;
    RowsOfEntities(rows, r.timeline, parseNumber);
    forall k | 0 <= k < |es|
      ensures r.entities[k] == Entity(k, es[k].entityName,
        LifeFromSpan(es[k].lifeDetails.birthBeatId, es[k].lifeDetails.deathBeatId, es[k].lifeDetails.isAlive))
    {
      HeadTail(rows[k]);
      ExportedRow(es[k], rows[k][1..], k, |r.timeline|);
    }
  }

  /** load: the data handler initialised with what the lines give, or None where the code raises. */
  method Load(lines: seq<seq<string>>, parseDateTime: string -> Option<string>, parseNumber: string -> Option<real>)
    returns (handler: Option<DataHandler>)
    ensures handler.Some? <==> LoadOf(lines, parseDateTime, parseNumber).Some?
    ensures handler.Some? ==> (fresh(handler.value) && handler.value.Valid() && handler.value.fileType == None
      && handler.value.timeline == LoadOf(lines, parseDateTime, parseNumber).value.timeline
      && handler.value.population == LoadOf(lines, parseDateTime, parseNumber).value.entities
      && handler.value.measurementsList == LoadOf(lines, parseDateTime, parseNumber).value.tems)
  {
    var timeline: seq<Beat> := [];
    var entities: seq<Entity> := [];
    var tems: seq<TimeEntityMeasurements> := [];
    ghost var rows := if lines == [] then [] else lines[1..];
    var i := 0;
    while i < |lines|
      invariant 0 <= i <= |lines|
      invariant i == 0 ==> timeline == [] && entities == [] && tems == []
      invariant i >= 1 ==> (HeaderTimeline(lines[0], parseDateTime) == Some(timeline)
        && RowsOf(rows[..i - 1], timeline, parseNumber) == Some((entities, tems)))
    {
      if i == 0 {
        var parsed := ParseTimeLine(lines[0], parseDateTime);
        if parsed.None? {
          return None;
        }
        timeline := parsed.value;
      } else {
        var line := LoadLine(lines[i], i - 1, timeline, parseNumber);
        RowsOfStep(rows, i - 1, timeline, parseNumber);
        if line.None? {
          RowsOfStaysNone(rows, i, timeline, parseNumber);
          return None;
        }
        entities := entities + [line.value.0];
        tems := tems + line.value.1;
      }
      i := i + 1;
    }
    if lines != [] {
      assert rows[..i - 1] == rows;
    }
    var h := new DataHandler();
    h.Init(timeline, entities, tems);
    handler := Some(h);
  }
}
