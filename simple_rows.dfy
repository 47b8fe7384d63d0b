/**
 * SimpleRowParser: one data line of a simple CSV or TSV file, already cut
 * into fields, split into the entity's name and its per-beat values, and the
 * entity built from them. The first field decides the format: an encoded
 * entity `{name,birth,death,alive}` (as the TEM exporter writes it), a name
 * that the field separator cut into several quoted fields, or a plain name.
 */
module SimpleRows {
  import opened Wrappers
  import opened Kinds
  import opened Models
  import opened Text
  import opened Data
  import opened Lists

  // ----- findFormatType -----

  /** The format of a line, decided by its first field. */
  function FormatOf(first: string): (r: RowFormatType)
    ensures r == ENTITY_INFO <==> |first| >= 2 && first[0] == '{' && first[|first| - 1] == '}'
    ensures r == NORMAL ==> ',' !in first && '.' !in first && '"' !in first
  {
    if StartsWith(first, "{") && EndsWith(first, "}") then
      assert first[0] == first[..1][0] && first[|first| - 1] == first[|first| - 1..][0];
      ENTITY_INFO
    else if ',' in first || '.' in first || '"' in first then MULTI_WORDS
    else NORMAL
  }

  // ----- findSplitPoint -----

  /** The first index from i on whose field holds a double quote, or -1. */
  function QuoteFrom(line: seq<string>, i: nat): (r: int)
    requires i <= |line|
    ensures r == -1 || (i <= r < |line| && '"' in line[r])
    ensures forall k :: i <= k < |line| && (r == -1 || k < r) ==> '"' !in line[k]
    decreases |line| - i
  {
    if i == |line| then -1
    else if '"' in line[i] then i
    else QuoteFrom(line, i + 1)
  }

  /**
   * Where the values start: for a multi-word name, one past the first field
   * after the first that holds a double quote; otherwise, or when there is no
   * such field, the split point is left as it was.
   */
  function SplitPointOf(line: seq<string>, format: RowFormatType, current: int): int
    requires |line| >= 1
  {
    if format == MULTI_WORDS && QuoteFrom(line, 1) != -1 then QuoteFrom(line, 1) + 1 else current
  }

  // ----- parseRowName -----

  /**
   * The row name: the first field, or for a multi-word name the fields
   * before the split point joined by commas, appended to the name so far,
   * with every double quote removed.
   */
  function RowNameOf(line: seq<string>, format: RowFormatType, splitPoint: int, current: string): string
    requires 1 <= splitPoint <= |line|
  {
    if format != MULTI_WORDS then line[0] else RemoveChar(current + Join(line[..splitPoint], ','), '"')
  }

  // ----- getBirthBeatId and getDeathBeatId -----

  /** The first index from i on whose value is not blank, or -1. */
  function FilledFrom(values: seq<string>, i: nat): (r: int)
    requires i <= |values|
    ensures r == -1 || (i <= r < |values| && !IsBlank(values[r]))
    ensures forall k :: i <= k < |values| && (r == -1 || k < r) ==> IsBlank(values[k])
    decreases |values| - i
  {
    if i == |values| then -1
    else if !IsBlank(values[i]) then i
    else FilledFrom(values, i + 1)
  }

  /** The last index below n whose value is not blank, or -1. */
  function FilledBefore(values: seq<string>, n: nat): (r: int)
    requires n <= |values|
    ensures r == -1 || (0 <= r < n && !IsBlank(values[r]))
    ensures forall k :: r < k < n ==> IsBlank(values[k])
  {
    if n == 0 then -1
    else if !IsBlank(values[n - 1]) then n - 1
    else FilledBefore(values, n - 1)
  }

  /** How many columns a row of `columns` values lacks against a timeline of `expected` beats. */
  function MissingColumns(columns: int, expected: int): int
  {
    if expected > columns then expected - columns else 0
  }

  /**
   * The death beat: the last filled value, shifted by the columns the row
   * lacks (a short row is taken to have lost its first columns), or the
   * timeline's size when no value is filled.
   */
  function DeathOf(values: seq<string>, expected: int): int
  {
    var last := FilledBefore(values, |values|);
    if last == -1 then expected else last + MissingColumns(|values|, expected)
  }

  /**
   * A row with a filled value lives from its first to its last filled value,
   * and when it is no longer than the timeline that life lies within the
   * timeline; a row with none is born at -1 and dies at the timeline's size.
   */
  lemma LifeOfRow(values: seq<string>, expected: int)
    ensures var birth := FilledFrom(values, 0); var death := DeathOf(values, expected);
      (birth == -1 <==> forall k :: 0 <= k < |values| ==> IsBlank(values[k]))
      && (birth == -1 ==> death == expected)
      && (birth != -1 ==> birth <= death && LifeFromSpan(birth, death, true).duration >= 1)
      && (birth != -1 && |values| <= expected ==> 0 <= birth <= death < expected)
  {
    var birth := FilledFrom(values, 0);
    var last := FilledBefore(values, |values|);
    if birth != -1 {
      assert last != -1 && birth <= last;
    }
  }

  // ----- parseEntity -----

  /** The components of an encoded entity: its first field without the braces, split at commas. */
  function Components(first: string): seq<string>
    requires |first| >= 2
  {
    Split(first[1..|first| - 1], ',')
  }

  /**
   * parseEntity as written: the name is the first component followed, for
   * each i from 1 below the component count less four, by a comma and the
   * LINE's field i; birth, death and the alive flag are the last three
   * components. None where the code raises: fewer than three components, a
   * field index past the line, or a birth or death that is not a number.
   */
  function EntityInfoAsWritten(line: seq<string>, entityId: int): Option<Entity>
    requires |line| >= 1 && |line[0]| >= 2
  {
    var comps := Components(line[0]);
    var ic := |comps| - 4;
    if ic + 1 < 0 || ic > |line| then None
    else
      var name := if ic <= 1 then comps[0] else Join([comps[0]] + line[1..ic], ',');
      var birth := ParseInt(comps[ic + 1]);
      var death := ParseInt(comps[ic + 2]);
      if birth.None? || death.None? then None
      else Some(Entity(entityId, name, LifeFromSpan(birth.value, death.value, comps[ic + 3] == "1")))
  }

  /**
   * parseEntity as evidently intended: the name is every component before
   * the last three, joined by commas (the first component alone when there
   * are only three); the failure cases are those of the code apart from the
   * line index.
   */
  function EntityInfoOf(first: string, entityId: int): (r: Option<Entity>)
    requires |first| >= 2
    ensures r.Some? ==> (|Components(first)| >= 3 && r.value.entityId == entityId
      && r.value.lifeDetails.isAlive == (Components(first)[|Components(first)| - 1] == "1"))
  {
    var comps := Components(first);
    var ic := |comps| - 4;
    if ic + 1 < 0 then None
    else
      var birth := ParseInt(comps[ic + 1]);
      var death := ParseInt(comps[ic + 2]);
      if birth.None? || death.None? then None
      else Some(Entity(entityId, Join(comps[..if ic + 1 < 1 then 1 else ic + 1], ','), LifeFromSpan(birth.value, death.value, comps[ic + 3] == "1")))
  }

  /** Four comma-free fields after a name, comma-separated: the name's pieces, then the three fields. */
  lemma PiecesOfFields(n: string, bs: string, ds: string, st: string)
    requires ',' !in bs && ',' !in ds && ',' !in st
    ensures Pieces(n + [','] + (bs + [','] + (ds + [','] + st)), ',') == Pieces(n, ',') + [bs, ds, st]
  {
    PiecesOfPlain(bs, ',');
    PiecesOfPlain(ds, ',');
    PiecesOfPlain(st, ',');
    PiecesAround(ds, st, ',');
    PiecesAround(bs, ds + [','] + st, ',');
    PiecesAround(n, bs + [','] + (ds + [','] + st), ',');
  }

  /** Inside the braces of an exported entity: the name, birth, death and alive flag, comma-separated. */
  lemma EntityInfoInner(e: Entity)
    ensures var f := EntityInfo(e); (|f| >= 2 && f[0] == '{' && f[|f| - 1] == '}'
      && f[1..|f| - 1] == e.entityName + [','] + (IntToString(e.lifeDetails.birthBeatId) + [','] + (IntToString(e.lifeDetails.deathBeatId) + [','] + (if e.lifeDetails.isAlive then "1" else "0"))))
  {
    var inner := e.entityName + [','] + (IntToString(e.lifeDetails.birthBeatId) + [','] + (IntToString(e.lifeDetails.deathBeatId) + [','] + (if e.lifeDetails.isAlive then "1" else "0")));
    var f := EntityInfo(e);
    assert f == "{" + inner + "}";
  }

  /** The components of an exported entity: the pieces of its name, then birth, death and the alive flag. */
  lemma EntityInfoComponents(e: Entity)
    ensures var comps := Components(EntityInfo(e));
      comps == Pieces(e.entityName, ',') + [IntToString(e.lifeDetails.birthBeatId), IntToString(e.lifeDetails.deathBeatId), if e.lifeDetails.isAlive then "1" else "0"]
  {
    var n := e.entityName;
    var bs := IntToString(e.lifeDetails.birthBeatId);
    var ds := IntToString(e.lifeDetails.deathBeatId);
    var st := if e.lifeDetails.isAlive then "1" else "0";
    var inner := n + [','] + (bs + [','] + (ds + [','] + st));
    EntityInfoInner(e);
    IntToStringPlain(e.lifeDetails.birthBeatId, ',');
    IntToStringPlain(e.lifeDetails.deathBeatId, ',');
    PiecesOfFields(n, bs, ds, st);
    var ps := Pieces(inner, ',');
    assert inner[|n|] == ',';
    assert ps[|ps| - 1] == st != "";
  }

  /**
   * Reading back what the TEM exporter writes: the encoded entity gives the
   * same name, birth, death and alive flag, whatever commas the name holds.
   */
  lemma EntityInfoRoundTrip(e: Entity, entityId: int)
    ensures FormatOf(EntityInfo(e)) == ENTITY_INFO
    ensures EntityInfoOf(EntityInfo(e), entityId)
      == Some(Entity(entityId, e.entityName, LifeFromSpan(e.lifeDetails.birthBeatId, e.lifeDetails.deathBeatId, e.lifeDetails.isAlive)))
  {
    var f := EntityInfo(e);
    EntityInfoInner(e);
    EntityInfoComponents(e);
    var comps := Components(f);
    var ns := Pieces(e.entityName, ',');
    assert comps[..|ns|] == ns;
    JoinOfPieces(e.entityName, ',');
    ParseIntOfIntToString(e.lifeDetails.birthBeatId);
    ParseIntOfIntToString(e.lifeDetails.deathBeatId);
  }

  /**
   * The code as written loses the second part of a two-part name: the line
   * `{a,b,0,2,1}` reads as an entity named "a", where "a,b" was written.
   */
  lemma AsWrittenDropsLastNamePart(a: string, b: string, life: LifeDetails, entityId: int)
    requires ',' !in a && ',' !in b
    ensures var e := Entity(entityId, a + [','] + b, life);
      var span := LifeFromSpan(life.birthBeatId, life.deathBeatId, life.isAlive);
      EntityInfoAsWritten([EntityInfo(e)], entityId) == Some(Entity(entityId, a, span))
      && EntityInfoOf(EntityInfo(e), entityId) == Some(Entity(entityId, a + [','] + b, span))
  {
    var e := Entity(entityId, a + [','] + b, life);
    EntityInfoRoundTrip(e, entityId);
    EntityInfoComponents(e);
    PiecesOfPlain(a, ',');
    PiecesOfPlain(b, ',');
    PiecesAround(a, b, ',');
    ParseIntOfIntToString(life.birthBeatId);
    ParseIntOfIntToString(life.deathBeatId);
  }

  /**
   * With a three-part name the code as written reads the line's first value
   * into the name: `{a,b,c,0,2,1}` followed by the value "5" reads as an
   * entity named "a,5", where "a,b,c" was written.
   */
  lemma AsWrittenReadsValueIntoName(a: string, b: string, c: string, value: string, life: LifeDetails, entityId: int)
    requires ',' !in a && ',' !in b && ',' !in c
    ensures var e := Entity(entityId, a + [','] + (b + [','] + c), life);
      var span := LifeFromSpan(life.birthBeatId, life.deathBeatId, life.isAlive);
      EntityInfoAsWritten([EntityInfo(e), value], entityId) == Some(Entity(entityId, a + [','] + value, span))
      && EntityInfoOf(EntityInfo(e), entityId) == Some(Entity(entityId, a + [','] + (b + [','] + c), span))
  {
    var e := Entity(entityId, a + [','] + (b + [','] + c), life);
    EntityInfoRoundTrip(e, entityId);
    EntityInfoComponents(e);
    PiecesOfPlain(a, ',');
    PiecesOfPlain(b, ',');
    PiecesOfPlain(c, ',');
    PiecesAround(b, c, ',');
    PiecesAround(a, b + [','] + c, ',');
    ParseIntOfIntToString(life.birthBeatId);
    ParseIntOfIntToString(life.deathBeatId);
    var line := [EntityInfo(e), value];
    assert [a] + line[1..2] == [a, value];
    assert [a, value][1..] == [value];
    assert Join([a, value], ',') == a + [','] + value;
    assert Pieces(e.entityName, ',') == [a, b, c];
  }

  // ----- splitNameAndValue -----

  /** What splitNameAndValue leaves: the split point, the values, the row name and the entity. */
  datatype Row = Row(splitPoint: int, rowValue: seq<string>, rowName: string, entity: Entity)

  /**
   * splitNameAndValue on a parser whose split point and row name are
   * `splitPoint0` and `rowName0` (1 and "" on a fresh parser); None where it
   * raises: an empty line, or an encoded entity that cannot be read.
   */
  function RowAfter(line: seq<string>, entityId: int, expected: int, splitPoint0: int, rowName0: string): (r: Option<Row>)
    requires 1 <= splitPoint0 && (|line| >= 1 ==> splitPoint0 <= |line|)
    ensures r.Some? ==> |line| >= 1 && r.value.entity.entityId == entityId
    ensures r.Some? ==> 1 <= r.value.splitPoint <= |line| && r.value.rowValue == line[r.value.splitPoint..]
  {
    if |line| == 0 then None
    else
      var format := FormatOf(line[0]);
      var sp := SplitPointOf(line, format, splitPoint0);
      var values := line[sp..];
      if format == ENTITY_INFO then
        match EntityInfoOf(line[0], entityId)
        case None => None
        case Some(e) => Some(Row(sp, values, rowName0, e))
      else
        var name := RowNameOf(line, format, sp, rowName0);
        Some(Row(sp, values, name, Entity(entityId, name, LifeFromSpan(FilledFrom(values, 0), DeathOf(values, expected), true))))
  }

  /** A line the TEM exporter wrote reads back as its entity, with every other field a value. */
  lemma ExportedRow(e: Entity, cells: seq<string>, entityId: int, expected: int)
    ensures RowAfter([EntityInfo(e)] + cells, entityId, expected, 1, "")
      == Some(Row(1, cells, "", Entity(entityId, e.entityName, LifeFromSpan(e.lifeDetails.birthBeatId, e.lifeDetails.deathBeatId, e.lifeDetails.isAlive))))
  {
    EntityInfoRoundTrip(e, entityId);
    var line := [EntityInfo(e)] + cells;
    assert line[0] == EntityInfo(e) && line[1..] == cells;
  }

  /** A quoted name cut into fields: the field closing the quote ends the name. */
  lemma QuotedSplitPoint(first: string, middle: seq<string>, last: string, values: seq<string>)
    requires '"' !in first && '"' !in last
    requires forall k :: 0 <= k < |middle| ==> '"' !in middle[k]
    ensures var line := ["\"" + first] + middle + [last + "\""] + values;
      FormatOf(line[0]) == MULTI_WORDS && QuoteFrom(line, 1) == |middle| + 1
  {
    var line := ["\"" + first] + middle + [last + "\""] + values;
    var sp := |middle| + 2;
    assert line[0][0] == '"';
    assert line[sp - 1] == last + "\"" && '"' in line[sp - 1];
    forall k | 1 <= k < sp - 1
      ensures '"' !in line[k]
    {
      assert line[k] == middle[k - 1];
    }
  }

  /** Quotes around a quote-free text are removed and nothing else is. */
  lemma Unquoted(body: string)
    requires '"' !in body
    ensures RemoveChar("\"" + body + "\"", '"') == body
  {
    RemoveCharAppend("\"" + body, "\"", '"');
    RemoveCharAppend("\"", body, '"');
    RemoveCharMeaning(body, '"');
  }

  /** Fields with no double quote join into a text with none. */
  lemma JoinUnquoted(first: string, middle: seq<string>, last: string)
    requires '"' !in first && '"' !in last
    requires forall k :: 0 <= k < |middle| ==> '"' !in middle[k]
    ensures '"' !in Join([first] + middle + [last], ',')
  {
    var names := [first] + middle + [last];
    forall k | 0 <= k < |names|
      ensures '"' !in names[k]
    {
      if 1 <= k <= |middle| {
        assert names[k] == middle[k - 1];
      }
    }
    JoinNoSep(names, ',', '"');
  }

  /** The fields of a quoted name, joined by commas with the quotes removed, give the name. */
  lemma QuotedName(first: string, middle: seq<string>, last: string)
    requires '"' !in first && '"' !in last
    requires forall k :: 0 <= k < |middle| ==> '"' !in middle[k]
    ensures RemoveChar(Join(["\"" + first] + middle + [last + "\""], ','), '"') == Join([first] + middle + [last], ',')
  {
    var q := "\"";
    var t := Terminated(middle, ',');
    JoinFramed(q + first, middle, last + q, ',');
    JoinFramed(first, middle, last, ',');
    var a := first + [','] + t;
    var body := a + last;
    AppendAssoc(q, first, [',']);
    AppendAssoc(q, first + [','], t);
    AppendAssoc(q + a, last, q);
    AppendAssoc(q, a, last);
    JoinUnquoted(first, middle, last);
    Unquoted(body);
  }

  /**
   * A name in double quotes that the separator cut into several fields is
   * put back together: the fields up to the one closing the quote are joined
   * by commas, the quotes dropped, and the values start after it.
   */
  lemma QuotedNameRow(first: string, middle: seq<string>, last: string, values: seq<string>, entityId: int, expected: int)
    requires '"' !in first && '"' !in last
    requires forall k :: 0 <= k < |middle| ==> '"' !in middle[k]
    ensures var line := ["\"" + first] + middle + [last + "\""] + values;
      var name := Join([first] + middle + [last], ',');
      RowAfter(line, entityId, expected, 1, "")
        == Some(Row(|middle| + 2, values, name, Entity(entityId, name, LifeFromSpan(FilledFrom(values, 0), DeathOf(values, expected), true))))
  {
    var parts := ["\"" + first] + middle + [last + "\""];
    var line := parts + values;
    QuotedSplitPoint(first, middle, last, values);
    QuotedName(first, middle, last);
    assert line[..|middle| + 2] == parts && line[|middle| + 2..] == values;
    assert "" + Join(parts, ',') == Join(parts, ',');
  }

  /**
   * The parser of one line: the line and the entity id are fixed when it is
   * built; splitNameAndValue fills in the other fields.
   */
  class SimpleRowParser {
    const line: seq<string>
    const entityId: int
    var rowName: string
    var rowValue: seq<string>
    var splitPoint: int
    var entity: Option<Entity>
    var formatType: Option<RowFormatType>

    /** The split point lies within the line (a line with no field keeps the initial 1). */
    ghost predicate Valid()
      reads this
    {
      1 <= splitPoint && (|line| >= 1 ==> splitPoint <= |line|)
    }

    constructor (line: seq<string>, entityId: int)
      ensures this.line == line && this.entityId == entityId
      ensures rowName == "" && rowValue == [] && splitPoint == 1 && entity == None && formatType == None
      ensures Valid()
    {
      this.line := line;
      this.entityId := entityId;
      rowName := "";
      rowValue := [];
      splitPoint := 1;
      entity := None;
      formatType := None;
    }

    method FindFormatType()
      requires |line| >= 1
      modifies this
      ensures formatType == Some(FormatOf(line[0]))
      ensures rowName == old(rowName) && rowValue == old(rowValue) && splitPoint == old(splitPoint) && entity == old(entity)
    {
      if StartsWith(line[0], "{") && EndsWith(line[0], "}") {
        formatType := Some(ENTITY_INFO);
      } else if ',' in line[0] || '.' in line[0] || '"' in line[0] {
        formatType := Some(MULTI_WORDS);
      } else {
        formatType := Some(NORMAL);
      }
    }

    method FindSplitPoint()
      requires Valid() && |line| >= 1 && formatType.Some?
      modifies this
      ensures rowName == old(rowName) && rowValue == old(rowValue) && entity == old(entity) && formatType == old(formatType)
      ensures splitPoint == SplitPointOf(line, formatType.value, old(splitPoint))
      ensures Valid()
    {
      if formatType.value == MULTI_WORDS {
        var i := 1;
        while i < |line|
          invariant 1 <= i <= |line|
          invariant QuoteFrom(line, i) == QuoteFrom(line, 1)
          invariant unchanged(this)
        {
          if '"' in line[i] {
            splitPoint := i + 1;
            return;
          }
          i := i + 1;
        }
      }
    }

    method ParseRowValue()
      requires Valid() && |line| >= 1
      modifies this
      ensures rowName == old(rowName) && splitPoint == old(splitPoint) && entity == old(entity) && formatType == old(formatType)
      ensures rowValue == line[splitPoint..]
    {
      rowValue := line[splitPoint..];
    }

    method ParseRowName()
      requires Valid() && |line| >= 1 && formatType.Some?
      modifies this
      ensures rowValue == old(rowValue) && splitPoint == old(splitPoint) && entity == old(entity) && formatType == old(formatType)
      ensures rowName == RowNameOf(line, formatType.value, splitPoint, old(rowName))
    {
      if formatType.value != MULTI_WORDS {
        rowName := line[0];
      } else {
        var parts := line[..splitPoint];
        var name := rowName;
        var i := 0;
        while i < |parts|
          invariant 0 <= i <= |parts|
          invariant name == rowName + Written(parts, i, ',', "")
          invariant unchanged(this)
        {
          WrittenStep(parts, i, ',', "");
          name := name + parts[i];
          if i < |parts| - 1 {
            name := name + ",";
          }
          i := i + 1;
        }
        assert Join(parts, ',') + "" == Join(parts, ',');
        rowName := RemoveChar(name, '"');
      }
    }

    method GetBirthBeatId() returns (birth: int)
      ensures birth == FilledFrom(rowValue, 0)
    {
      var i := 0;
      while i < |rowValue|
        invariant 0 <= i <= |rowValue|
        invariant FilledFrom(rowValue, i) == FilledFrom(rowValue, 0)
      {
        if !IsBlank(rowValue[i]) {
          return i;
        }
        i := i + 1;
      }
      return -1;
    }

    method GetDeathBeatId(expected: int) returns (death: int)
      ensures death == DeathOf(rowValue, expected)
    {
      var missing := 0;
      var columns := |rowValue|;
      while expected > columns + missing
        invariant 0 <= missing <= MissingColumns(columns, expected)
        decreases expected - columns - missing
      {
        missing := missing + 1;
      }
      var i := columns - 1;
      while i >= 0
        invariant -1 <= i < columns
        invariant FilledBefore(rowValue, i + 1) == FilledBefore(rowValue, columns)
      {
        if !IsBlank(rowValue[i]) {
          return i + missing;
        }
        i := i - 1;
      }
      return expected;
    }

    method GenerateEntity(expected: int)
      modifies this
      ensures entity == Some(Entity(entityId, rowName, LifeFromSpan(FilledFrom(rowValue, 0), DeathOf(rowValue, expected), true)))
      ensures rowName == old(rowName) && rowValue == old(rowValue) && splitPoint == old(splitPoint) && formatType == old(formatType)
    {
      var birth := GetBirthBeatId();
      var death := GetDeathBeatId(expected);
      entity := Some(Entity(entityId, rowName, LifeFromSpan(birth, death, true)));
    }

    /** parseEntity, with the name rebuilt from the components (see EntityInfoAsWritten for the code as written). */
    method ParseEntity() returns (ok: bool)
      requires |line| >= 1 && FormatOf(line[0]) == ENTITY_INFO
      modifies this
      ensures ok <==> EntityInfoOf(line[0], entityId).Some?
      ensures entity == if ok then EntityInfoOf(line[0], entityId) else old(entity)
      ensures rowName == old(rowName) && rowValue == old(rowValue) && splitPoint == old(splitPoint) && formatType == old(formatType)
    {
      var first := line[0];
      var comps := Components(first);
      var ic := |comps| - 4;
      if ic + 1 < 0 {
        return false;
      }
      var name := comps[0];
      var i := 1;
      while i <= ic
        invariant 1 <= i <= (if ic + 1 < 1 then 1 else ic + 1)
        invariant name == Join(comps[..i], ',')
        invariant unchanged(this)
      {
        PrefixStep(comps, i);
        JoinSnoc(comps[..i], comps[i], ',');
        name := name + "," + comps[i];
        i := i + 1;
      }
      var birth := ParseInt(comps[ic + 1]);
      var death := ParseInt(comps[ic + 2]);
      if birth.None? || death.None? {
        return false;
      }
      entity := Some(Entity(entityId, name, LifeFromSpan(birth.value, death.value, comps[ic + 3] == "1")));
      ok := true;
    }

    /** splitNameAndValue; false where the code raises. */
    method SplitNameAndValue(expected: int) returns (ok: bool)
      requires Valid()
      modifies this
      ensures Valid()
      ensures ok <==> RowAfter(line, entityId, expected, old(splitPoint), old(rowName)).Some?
      ensures ok ==> (var r := RowAfter(line, entityId, expected, old(splitPoint), old(rowName)).value;
        splitPoint == r.splitPoint && rowValue == r.rowValue && rowName == r.rowName && entity == Some(r.entity))
      ensures |line| >= 1 ==> (formatType == Some(FormatOf(line[0])) && splitPoint == SplitPointOf(line, FormatOf(line[0]), old(splitPoint))
        && rowValue == line[splitPoint..])
      ensures |line| == 0 ==> splitPoint == old(splitPoint) && rowValue == old(rowValue) && formatType == old(formatType)
      ensures !ok ==> rowName == old(rowName) && entity == old(entity)
    {
      if |line| == 0 {
        return false;
      }
      FindFormatType();
      FindSplitPoint();
      ParseRowValue();
      if formatType.value == ENTITY_INFO {
        ok := ParseEntity();
      } else {
        ParseRowName();
        GenerateEntity(expected);
        ok := true;
      }
    }
  }
}
