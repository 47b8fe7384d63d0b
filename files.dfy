/**
 * FileHandler: the GPM file's parser (the phase header, the group lines and
 * their cell lists), the file-name rules that pick the file type and bind
 * the two files of a saved project, and the round trip from the text a
 * ClusteringHandler writes back to the phases, names and values it came
 * from. CsvReader, which turns the file into lines of tab-separated fields,
 * is modelled by ReadLines.
 */
module Files {
  import opened Wrappers
  import opened Kinds
  import opened Lists
  import opened Text
  import opened GpmText

  // ----- the parsers, as functions -----

  /**
   * parseListFromString: every '{' and '}' removed, split on ','; a single
   * blank piece means an empty list.
   */
  function ParseListFromString(text: string): (r: seq<string>)
    ensures forall k :: 0 <= k < |r| ==> ',' !in r[k]
  {
    var ps := Split(RemoveChar(RemoveChar(text, '{'), '}'), ',');
    if |ps| == 1 && IsBlank(ps[0]) then [] else ps
  }

  /** A header field "{id,first,last}": the first three pieces as integers; None where Java throws. */
  function ParsePhaseField(s: string): (r: Option<PhaseBounds>)
  {
    var c := ParseListFromString(s);
    if |c| < 3 then None
    else if ParseInt(c[0]).None? || ParseInt(c[1]).None? || ParseInt(c[2]).None? then None
    else Some(PhaseBounds(ParseInt(c[0]).value, ParseInt(c[1]).value, ParseInt(c[2]).value))
  }

  /** loadPhases: every header field in order; None if any of them fails. */
  function ParsePhaseFields(line: seq<string>): (r: Option<seq<PhaseBounds>>)
    ensures r.Some? ==> |r.value| == |line| && forall k :: 0 <= k < |line| ==> ParsePhaseField(line[k]) == Some(r.value[k])
  {
    AllSome(ParsePhaseField, line)
  }

  /** One cell entry "p:v": p parsed as an integer, v by the number parser; None where Java throws. */
  function ParseCellEntry(text: string, parseReal: string -> Option<real>): Option<(int, real)>
  {
    var pv := Split(text, ':');
    if |pv| < 2 then None
    else if ParseInt(pv[0]).None? || parseReal(pv[1]).None? then None
    else Some((ParseInt(pv[0]).value, parseReal(pv[1]).value))
  }

  /** The entries put into `acc` in order, a later entry for the same phase replacing an earlier one. */
  function PutCells(acc: map<int, real>, texts: seq<string>, parseReal: string -> Option<real>): Option<map<int, real>>
    decreases |texts|
  {
    if texts == [] then Some(acc)
    else
      var e := ParseCellEntry(texts[0], parseReal);
      if e.None? then None else PutCells(acc[e.value.0 := e.value.1], texts[1..], parseReal)
  }

  /** parseGroupPhaseMeasurements: "{p:v,...}" as a map from phase id to value. */
  function ParseGroupPhaseMeasurements(text: string, parseReal: string -> Option<real>): Option<map<int, real>>
  {
    PutCells(map[], ParseListFromString(text), parseReal)
  }

  /** A parsed GPM file: the phase triples, and each group id's member names and cell values. */
  datatype GpmData = GpmData(phases: seq<PhaseBounds>, names: map<int, seq<string>>, cells: map<int, map<int, real>>)

  /** A group line: its id (field 0), its names (field 1) and its cell values (field 2). */
  function ParseGroupLine(line: seq<string>, parseReal: string -> Option<real>): Option<GpmRow>
  {
    if |line| < 3 || ParseInt(line[0]).None? then None
    else
      var cells := ParseGroupPhaseMeasurements(line[2], parseReal);
      if cells.None? then None
      else Some(GpmRow(ParseInt(line[0]).value, ParseListFromString(line[1]), cells.value))
  }

  /**
   * loadGPMData: line 0 is the phase header, every later line a group line
   * whose id is mapped to its names and its values (a repeated id keeps the
   * last line's). None where Java throws.
   */
  function ParseGpm(lines: seq<seq<string>>, parseReal: string -> Option<real>): Option<GpmData>
  {
    if lines == [] then Some(GpmData([], map[], map[]))
    else if |lines| == 1 then
      var ps := ParsePhaseFields(lines[0]);
      if ps.None? then None else Some(GpmData(ps.value, map[], map[]))
    else
      AddGroupRow(ParseGpm(lines[..|lines| - 1], parseReal), ParseGroupLine(lines[|lines| - 1], parseReal))
  }

  /** One group line read into the data so far: its id now maps to its names and values. */
  function AddGroupRow(front: Option<GpmData>, row: Option<GpmRow>): Option<GpmData>
  {
    if front.None? || row.None? then None
    else Some(front.value.(names := front.value.names[row.value.groupId := row.value.names],
                           cells := front.value.cells[row.value.groupId := row.value.cells]))
  }

  /**
   * The line terminators BufferedReader accepts ('\n', '\r', and '\r'
   * followed by '\n') each written as a single '\n'.
   */
  function LineEnds(s: string): (r: string)
    ensures '\r' !in r
    ensures '\r' !in s ==> r == s
    ensures r == [] <==> s == []
    decreases |s|
  {
    if s == [] then []
    else if s[0] == '\r' then "\n" + LineEnds(if |s| >= 2 && s[1] == '\n' then s[2..] else s[1..])
    else [s[0]] + LineEnds(s[1..])
  }

  /**
   * CsvReader.readAll with the tab separator: the text's lines as
   * BufferedReader.lines gives them (a terminator after the last line ends
   * it rather than starting an empty one), each split on tabs.
   */
  function TextLines(text: string): seq<string>
  {
    if text == [] then []
    else
      var ps := Pieces(LineEnds(text), '\n');
      if ps[|ps| - 1] == "" then ps[..|ps| - 1] else ps
  }

  function ReadLines(text: string): (r: seq<seq<string>>)
    ensures |r| == |TextLines(text)| && forall k :: 0 <= k < |r| ==> r[k] == Split(TextLines(text)[k], '\t')
  {
    var ls := TextLines(text);
    seq(|ls|, k requires 0 <= k < |ls| => Split(ls[k], '\t'))
  }

  /** A text whose lines are a header line and further lines reads back as their fields, line by line. */
  lemma FieldsOfLines(text: string, header: string, rest: seq<string>, hf: seq<string>, fields: seq<seq<string>>)
    requires TextLines(text) == [header] + rest
    requires Split(header, '\t') == hf
    requires |fields| == |rest| && forall k :: 0 <= k < |rest| ==> Split(rest[k], '\t') == fields[k]
    ensures |ReadLines(text)| == |rest| + 1
    ensures ReadLines(text)[0] == hf
    ensures forall k :: 0 <= k < |rest| ==> ReadLines(text)[k + 1] == fields[k]
  {
    var ls := TextLines(text);
    var lines := ReadLines(text);
    assert lines[0] == Split(ls[0], '\t');
    forall k | 0 <= k < |rest| ensures lines[k + 1] == fields[k] {
      assert lines[k + 1] == Split(ls[k + 1], '\t');
      assert ls[k + 1] == rest[k];
    }
  }

  /** The lines after the first read back as the fields of the text's lines after the first. */
  lemma RestFields(text: string, rest: seq<string>)
    requires |TextLines(text)| >= 1 && TextLines(text)[1..] == rest
    ensures |ReadLines(text)[1..]| == |rest| && forall k :: 0 <= k < |rest| ==> ReadLines(text)[1..][k] == Split(rest[k], '\t')
  {
    var ls := TextLines(text);
    forall k | 0 <= k < |rest| ensures ReadLines(text)[1..][k] == Split(rest[k], '\t') {
      assert ReadLines(text)[1..][k] == ReadLines(text)[k + 1] == Split(ls[k + 1], '\t');
    }
  }

  /** Lines each followed by '\n', free of both terminator characters, read back as themselves. */
  lemma TerminatedLines(ls: seq<string>)
    requires |ls| >= 1 && forall k :: 0 <= k < |ls| ==> '\n' !in ls[k] && '\r' !in ls[k]
    ensures '\r' !in Terminated(ls, '\n')
    ensures TextLines(Terminated(ls, '\n')) == ls
  {
    var parts := ls + [""];
    JoinAppendLast(ls, "", '\n');
    assert Terminated(ls, '\n') == Join(parts, '\n');
    forall k | 0 <= k < |parts| ensures '\n' !in parts[k] && '\r' !in parts[k] {
      if k < |ls| {
        assert parts[k] == ls[k];
      }
    }
    JoinNoSep(parts, '\n', '\r');
    PiecesOfJoin(parts, '\n');
    assert Terminated(ls, '\n') != [] by {
      assert |Terminated(ls, '\n')| >= |ls[0]| + 1;
    }
    assert parts[..|parts| - 1] == ls;
  }

  /** Lines each followed by the same terminator `t`. */
  function EndedBy(ls: seq<string>, t: string): (r: string)
    ensures ls != [] && t != [] ==> r != []
  {
    if ls == [] then "" else ls[0] + t + EndedBy(ls[1..], t)
  }

  lemma {:induction false} LineEndsAppend(a: string, b: string)
    requires '\r' !in a
    ensures LineEnds(a + b) == a + LineEnds(b)
    decreases |a|
  {
    if a != [] {
      assert (a + b)[0] == a[0] && (a + b)[1..] == a[1..] + b;
      assert a[0] != '\r';
      assert LineEnds(a + b) == [a[0]] + LineEnds(a[1..] + b);
      LineEndsAppend(a[1..], b);
      assert [a[0]] + a[1..] == a;
    } else {
      assert a + b == b;
    }
  }

  /** One terminator in front of a text that does not start a "\r\n" with it becomes one '\n'. */
  lemma LineEndsTerminator(t: string, rest: string)
    requires t == "\n" || t == "\r" || t == "\r\n"
    requires t == "\r" && rest != [] ==> rest[0] != '\n'
    ensures LineEnds(t + rest) == "\n" + LineEnds(rest)
  {
    if t == "\r\n" {
      assert (t + rest)[2..] == rest;
    } else {
      assert (t + rest)[1..] == rest;
    }
  }

  /** Lines ended by `t` start with neither '\n' nor, when `t` is a lone '\r', anything but a line's first character or '\r'. */
  lemma EndedByStart(ls: seq<string>, t: string)
    requires t == "\n" || t == "\r" || t == "\r\n"
    requires forall k :: 0 <= k < |ls| ==> '\n' !in ls[k]
    ensures EndedBy(ls, t) != [] && t == "\r" ==> EndedBy(ls, t)[0] != '\n'
  {
    if ls != [] && t == "\r" {
      if ls[0] == [] {
        assert EndedBy(ls, t)[0] == '\r';
      } else {
        assert EndedBy(ls, t)[0] == ls[0][0];
      }
    }
  }

  lemma {:induction false} LineEndsEndedBy(ls: seq<string>, t: string)
    requires t == "\n" || t == "\r" || t == "\r\n"
    requires forall k :: 0 <= k < |ls| ==> '\n' !in ls[k] && '\r' !in ls[k]
    ensures LineEnds(EndedBy(ls, t)) == Terminated(ls, '\n')
    decreases |ls|
  {
    if ls != [] {
      var rest := EndedBy(ls[1..], t);
      calc {
        LineEnds(EndedBy(ls, t));
        { assert EndedBy(ls, t) == ls[0] + (t + rest); }
        LineEnds(ls[0] + (t + rest));
        { LineEndsAppend(ls[0], t + rest); }
        ls[0] + LineEnds(t + rest);
        { EndedByStart(ls[1..], t); LineEndsTerminator(t, rest); }
        ls[0] + ("\n" + LineEnds(rest));
        { LineEndsEndedBy(ls[1..], t); }
        ls[0] + ("\n" + Terminated(ls[1..], '\n'));
        { assert ls[0] + ['\n'] + Terminated(ls[1..], '\n') == ls[0] + ("\n" + Terminated(ls[1..], '\n')); }
        Terminated(ls, '\n');
      }
    }
  }

  /**
   * A text whose lines all end in '\r' followed by '\n', or all in a lone
   * '\r', reads as the same lines as one whose lines end in '\n'.
   */
  lemma EndedByLines(ls: seq<string>, t: string)
    requires t == "\n" || t == "\r" || t == "\r\n"
    requires |ls| >= 1 && forall k :: 0 <= k < |ls| ==> '\n' !in ls[k] && '\r' !in ls[k]
    ensures TextLines(EndedBy(ls, t)) == ls
  {
    LineEndsEndedBy(ls, t);
    TerminatedLines(ls);
    SameLineEnds(EndedBy(ls, t), Terminated(ls, '\n'));
  }

  /** TextLines sees a text only through LineEnds. */
  lemma SameLineEnds(x: string, y: string)
    requires x != [] && y != [] && LineEnds(x) == LineEnds(y)
    ensures TextLines(x) == TextLines(y)
  {
  }

  // ----- the file-name rules -----

  /** A file as the handler sees it: its name and whether it is a directory. */
  datatype FileRef = FileRef(name: string, isDirectory: bool)

  /** FileType.valueOf: the constant with exactly that name, None for IllegalArgumentException. */
  function FileTypeOf(s: string): (r: Option<FileType>)
    ensures r == Some(CSV) <==> s == "CSV"
    ensures r == Some(TSV) <==> s == "TSV"
    ensures r == Some(SCHEMA_EVO) <==> s == "SCHEMA_EVO"
    ensures r == Some(TEM_GPM) <==> s == "TEM_GPM"
  {
    if s == "CSV" then Some(CSV)
    else if s == "TSV" then Some(TSV)
    else if s == "SCHEMA_EVO" then Some(SCHEMA_EVO)
    else if s == "TEM_GPM" then Some(TEM_GPM)
    else None
  }

  // ----- the handler -----

  class FileHandler {
    var projectName: Option<string>
    var fileType: Option<FileType>
    var temFile: Option<FileRef>
    var gpmFile: Option<FileRef>
    var phasesData: seq<PhaseBounds>
    var entityGroupIdToComponentsNameMap: map<int, seq<string>>
    var entityGroupIdToGPMMap: map<int, map<int, real>>

    constructor ()
      ensures projectName == None && fileType == None && temFile == None && gpmFile == None
      ensures phasesData == [] && entityGroupIdToComponentsNameMap == map[] && entityGroupIdToGPMMap == map[]
    {
      projectName := None;
      fileType := None;
      temFile := None;
      gpmFile := None;
      phasesData := [];
      entityGroupIdToComponentsNameMap := map[];
      entityGroupIdToGPMMap := map[];
    }

    /**
     * parseFileInfo: a directory is a schema-evolution project named after
     * it; a file "name.ext" gets the type named by the upper-cased second
     * dot-separated piece. ok is false where Java throws (no second piece,
     * or no such type), and then nothing is claimed about the fields.
     */
    method ParseFileInfo(file: FileRef) returns (ok: bool)
      modifies this
      ensures file.isDirectory ==> ok && projectName == Some(file.name) && fileType == Some(SCHEMA_EVO) && temFile == Some(file)
      ensures !file.isDirectory ==>
                (ok <==> |Split(file.name, '.')| >= 2 && FileTypeOf(ToUpper(Split(file.name, '.')[1])).Some?)
      ensures !file.isDirectory && ok ==>
                projectName == Some(Split(file.name, '.')[0]) && fileType == FileTypeOf(ToUpper(Split(file.name, '.')[1])) && temFile == Some(file)
      ensures gpmFile == old(gpmFile) && phasesData == old(phasesData)
      ensures entityGroupIdToComponentsNameMap == old(entityGroupIdToComponentsNameMap) && entityGroupIdToGPMMap == old(entityGroupIdToGPMMap)
    {
      if !file.isDirectory {
        var components := Split(file.name, '.');
        if |components| < 2 {
          return false;
        }
        projectName := Some(components[0]);
        var t := FileTypeOf(ToUpper(components[1]));
        if t.None? {
          return false;
        }
        fileType := t;
        temFile := Some(file);
        ok := true;
      } else {
        projectName := Some(file.name);
        fileType := Some(SCHEMA_EVO);
        temFile := Some(file);
        ok := true;
      }
    }

    /** mapFileToParameter: a name ending in "tem.tsv" binds the TEM file, else one ending in "gpm.tsv" the GPM file. */
    method MapFileToParameter(file: FileRef)
      modifies this
      ensures EndsWith(file.name, "tem.tsv") ==> temFile == Some(file) && gpmFile == old(gpmFile)
      ensures !EndsWith(file.name, "tem.tsv") && EndsWith(file.name, "gpm.tsv") ==> gpmFile == Some(file) && temFile == old(temFile)
      ensures !EndsWith(file.name, "tem.tsv") && !EndsWith(file.name, "gpm.tsv") ==> temFile == old(temFile) && gpmFile == old(gpmFile)
      ensures projectName == old(projectName) && fileType == old(fileType) && phasesData == old(phasesData)
      ensures entityGroupIdToComponentsNameMap == old(entityGroupIdToComponentsNameMap) && entityGroupIdToGPMMap == old(entityGroupIdToGPMMap)
    {
      if EndsWith(file.name, "tem.tsv") {
        temFile := Some(file);
      } else if EndsWith(file.name, "gpm.tsv") {
        gpmFile := Some(file);
      }
    }

    /** loadPhases: the header fields parsed in order into a new list. */
    method LoadPhases(line: seq<string>) returns (ok: bool)
      modifies this
      ensures ok <==> ParsePhaseFields(line).Some?
      ensures ok ==> phasesData == ParsePhaseFields(line).value
      ensures projectName == old(projectName) && fileType == old(fileType) && temFile == old(temFile) && gpmFile == old(gpmFile)
      ensures entityGroupIdToComponentsNameMap == old(entityGroupIdToComponentsNameMap) && entityGroupIdToGPMMap == old(entityGroupIdToGPMMap)
    {
      phasesData := [];
      var i := 0;
      while i < |line|
        invariant 0 <= i <= |line|
        invariant ParsePhaseFields(line[..i]) == Some(phasesData)
        invariant projectName == old(projectName) && fileType == old(fileType) && temFile == old(temFile) && gpmFile == old(gpmFile)
        invariant entityGroupIdToComponentsNameMap == old(entityGroupIdToComponentsNameMap) && entityGroupIdToGPMMap == old(entityGroupIdToGPMMap)
      {
        var p := ParsePhaseField(line[i]);
        assert line[..i + 1][..i] == line[..i];
        if p.None? {
          return false;
        }
        phasesData := phasesData + [p.value];
        i := i + 1;
      }
      assert line[..i] == line;
      ok := true;
    }

    /** parseGroupPhaseMeasurements: each entry of the list put into a new map in order. */
    static method ParseMeasurementsText(text: string, parseReal: string -> Option<real>) returns (r: Option<map<int, real>>)
      ensures r == ParseGroupPhaseMeasurements(text, parseReal)
    {
      var texts := ParseListFromString(text);
      var gpmMap: map<int, real> := map[];
      var i := 0;
      while i < |texts|
        invariant 0 <= i <= |texts|
        invariant PutCells(map[], texts, parseReal) == PutCells(gpmMap, texts[i..], parseReal)
      {
        var e := ParseCellEntry(texts[i], parseReal);
        PutCellsStep(gpmMap, texts, i, parseReal);
        if e.None? {
          return None;
        }
        gpmMap := gpmMap[e.value.0 := e.value.1];
        i := i + 1;
      }
      r := Some(gpmMap);
    }

    /**
     * loadGPMData: line 0 goes to loadPhases, every other line is a group
     * line. ok is false where Java throws, and then nothing is claimed about
     * the fields; with no line at all the phases are left as they were.
     */
    method LoadGPMData(lines: seq<seq<string>>, parseReal: string -> Option<real>) returns (ok: bool)
      modifies this
      ensures ok <==> ParseGpm(lines, parseReal).Some?
      ensures ok && lines != [] ==> phasesData == ParseGpm(lines, parseReal).value.phases
      ensures ok ==> entityGroupIdToComponentsNameMap == ParseGpm(lines, parseReal).value.names
      ensures ok ==> entityGroupIdToGPMMap == ParseGpm(lines, parseReal).value.cells
      ensures lines == [] ==> phasesData == old(phasesData)
      ensures projectName == old(projectName) && fileType == old(fileType) && temFile == old(temFile) && gpmFile == old(gpmFile)
    {
      entityGroupIdToGPMMap := map[];
      entityGroupIdToComponentsNameMap := map[];
      var lineNumber := 0;
      while lineNumber < |lines|
        invariant 0 <= lineNumber <= |lines|
        invariant ParseGpm(lines[..lineNumber], parseReal).Some?
        invariant lineNumber >= 1 ==> phasesData == ParseGpm(lines[..lineNumber], parseReal).value.phases
        invariant lineNumber == 0 ==> phasesData == old(phasesData)
        invariant entityGroupIdToComponentsNameMap == ParseGpm(lines[..lineNumber], parseReal).value.names
        invariant entityGroupIdToGPMMap == ParseGpm(lines[..lineNumber], parseReal).value.cells
        invariant projectName == old(projectName) && fileType == old(fileType) && temFile == old(temFile) && gpmFile == old(gpmFile)
      {
        var line := lines[lineNumber];
        if lineNumber == 0 {
          GpmHeaderStep(lines, parseReal);
          var phasesOk := LoadPhases(line);
          if !phasesOk {
            GpmFailPrefix(lines, parseReal, 1);
            return false;
          }
        } else {
          var row := ParseGroupLine(line, parseReal);
          GpmRowStep(lines, parseReal, lineNumber);
          if row.None? {
            GpmFailPrefix(lines, parseReal, lineNumber + 1);
            return false;
          }
          entityGroupIdToComponentsNameMap := entityGroupIdToComponentsNameMap[row.value.groupId := row.value.names];
          entityGroupIdToGPMMap := entityGroupIdToGPMMap[row.value.groupId := row.value.cells];
        }
        lineNumber := lineNumber + 1;
      }
      assert lines[..lineNumber] == lines;
      ok := true;
    }
  }

  // ----- one step of the parsers -----

  lemma PutCellsStep(acc: map<int, real>, texts: seq<string>, i: int, parseReal: string -> Option<real>)
    requires 0 <= i < |texts|
    ensures ParseCellEntry(texts[i], parseReal).None? ==> PutCells(acc, texts[i..], parseReal).None?
    ensures ParseCellEntry(texts[i], parseReal).Some? ==>
              var e := ParseCellEntry(texts[i], parseReal).value;
              PutCells(acc, texts[i..], parseReal) == PutCells(acc[e.0 := e.1], texts[i + 1..], parseReal)
  {
    assert texts[i..][0] == texts[i] && texts[i..][1..] == texts[i + 1..];
  }

  lemma GpmHeaderStep(lines: seq<seq<string>>, parseReal: string -> Option<real>)
    requires |lines| >= 1
    ensures ParseGpm(lines[..1], parseReal)
            == if ParsePhaseFields(lines[0]).None? then None else Some(GpmData(ParsePhaseFields(lines[0]).value, map[], map[]))
  {
    assert lines[..1] == [lines[0]];
  }

  lemma GpmRowStep(lines: seq<seq<string>>, parseReal: string -> Option<real>, n: int)
    requires 1 <= n < |lines|
    ensures ParseGpm(lines[..n + 1], parseReal) == AddGroupRow(ParseGpm(lines[..n], parseReal), ParseGroupLine(lines[n], parseReal))
  {
    var l := lines[..n + 1];
    assert l[..|l| - 1] == lines[..n];
    assert l[|l| - 1] == lines[n];
    GpmLastStep(l, parseReal);
  }

  /** The last group line read into the data of the lines before it. */
  lemma GpmLastStep(lines: seq<seq<string>>, parseReal: string -> Option<real>)
    requires |lines| >= 2
    ensures ParseGpm(lines, parseReal) == AddGroupRow(ParseGpm(lines[..|lines| - 1], parseReal), ParseGroupLine(lines[|lines| - 1], parseReal))
  {
  }

  // ----- a failure stays a failure -----

  lemma {:induction false} GpmFailPrefix(lines: seq<seq<string>>, parseReal: string -> Option<real>, i: int)
    requires 1 <= i <= |lines| && ParseGpm(lines[..i], parseReal).None?
    ensures ParseGpm(lines, parseReal).None?
    decreases |lines| - i
  {
    if i == |lines| {
      assert lines[..i] == lines;
    } else {
      GpmRowStep(lines, parseReal, i);
      GpmFailPrefix(lines, parseReal, i + 1);
    }
  }
}
