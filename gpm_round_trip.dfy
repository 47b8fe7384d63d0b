/**
 * The GPM text a ClusteringHandler writes (GpmText.GpmString) read back by
 * the FileHandler's parser (Files.ParseGpm over Files.ReadLines) gives the
 * phases and the member names it was written from, and each cell value as
 * the number format wrote it and the number parser read it, as long as
 * nothing written contains a separator of the format. A value the format
 * writes with a thousands separator breaks the cell list
 * (GroupedValueUnreadable).
 */
module GpmRoundTrip {
  import opened Wrappers
  import opened Lists
  import opened Text
  import opened GpmText
  import opened Files

  /** Free of the separators of a braced list, of the field separator and of both line terminators. */
  predicate ListSafe(s: string) {
    ',' !in s && '{' !in s && '}' !in s && '\t' !in s && '\n' !in s && '\r' !in s
  }

  /** Free of every separator of the GPM format, the ':' of a cell entry included. */
  predicate Plain(s: string) {
    ListSafe(s) && ':' !in s
  }

  /** The number format writes `v` as something plain and non-empty that the number parser reads. */
  predicate Writable(v: real, fmt: real -> string, parseReal: string -> Option<real>) {
    fmt(v) != "" && Plain(fmt(v)) && parseReal(fmt(v)).Some?
  }

  /** Every value of a row's phase -> value map is writable. */
  predicate CellsWritable(m: map<int, real>, fmt: real -> string, parseReal: string -> Option<real>) {
    forall p :: p in m ==> Writable(m[p], fmt, parseReal)
  }

  predicate RowsWritable(rows: seq<GpmRow>, fmt: real -> string, parseReal: string -> Option<real>) {
    forall k :: 0 <= k < |rows| ==> CellsWritable(rows[k].cells, fmt, parseReal)
  }

  /** The values as the parser reads them from what the number format wrote (rounded, when the format rounds). */
  function ReadBack(m: map<int, real>, fmt: real -> string, parseReal: string -> Option<real>): map<int, real>
    requires CellsWritable(m, fmt, parseReal)
  {
    map p | p in m :: parseReal(fmt(m[p])).value
  }

  /** A row as it reads back: the same group id and names, its values as written and read. */
  function ReadRow(r: GpmRow, fmt: real -> string, parseReal: string -> Option<real>): GpmRow
    requires CellsWritable(r.cells, fmt, parseReal)
  {
    r.(cells := ReadBack(r.cells, fmt, parseReal))
  }

  function ReadRows(rows: seq<GpmRow>, fmt: real -> string, parseReal: string -> Option<real>): seq<GpmRow>
    requires RowsWritable(rows, fmt, parseReal)
  {
    seq(|rows|, k requires 0 <= k < |rows| && CellsWritable(rows[k].cells, fmt, parseReal) => ReadRow(rows[k], fmt, parseReal))
  }

  /**
   * Member names the braced list carries: at least one (with none the
   * writer leaves out the "}\t{" between the two lists, and the line has two
   * fields), no separator inside a name, the last name not empty (split
   * drops trailing empty pieces), and a name that stands alone not blank
   * (a single blank piece reads as no names). A ':' inside a name is fine.
   */
  predicate GoodNames(names: seq<string>) {
    |names| >= 1
    && (forall k :: 0 <= k < |names| ==> ListSafe(names[k]))
    && names[|names| - 1] != ""
    && (|names| == 1 ==> !IsBlank(names[0]))
  }

  /** A row the format can carry: good names, and a value only for phases of the header. */
  predicate GoodRow(r: GpmRow, ids: seq<int>) {
    GoodNames(r.names) && forall p :: p in r.cells ==> p in ids
  }

  predicate DistinctGroups(rows: seq<GpmRow>) {
    forall a, b :: 0 <= a < b < |rows| ==> rows[a].groupId != rows[b].groupId
  }

  // ----- characters -----

  /** Removing every '{' and then every '}' from a braced text without braces inside leaves the inside. */
  lemma StripBraces(j: string)
    requires '{' !in j && '}' !in j
    ensures RemoveChar(RemoveChar("{" + j + "}", '{'), '}') == j
  {
    var close: string := "}";
    var x := "{" + j + close;
    assert x[0] == '{' && x[1..] == j + close;
    RemoveCharMeaning(j, '{');
    RemoveCharMeaning(j, '}');
    RemoveCharMeaning(close, '{');
    RemoveCharAppend(j, close, '{');
    assert RemoveChar(x, '{') == j + close;
    RemoveCharAppend(j, close, '}');
    assert close[0] == '}' && close[1..] == [];
    assert RemoveChar(close, '}') == [];
  }

  lemma IntToStringPlainAll(n: int)
    ensures IntToString(n) != "" && Plain(IntToString(n))
  {
    IntToStringPlain(n, ',');
    IntToStringPlain(n, ':');
    IntToStringPlain(n, '{');
    IntToStringPlain(n, '}');
    IntToStringPlain(n, '\t');
    IntToStringPlain(n, '\n');
    IntToStringPlain(n, '\r');
  }

  lemma JoinListSafe(parts: seq<string>)
    requires forall k :: 0 <= k < |parts| ==> ListSafe(parts[k])
    ensures '{' !in Join(parts, ',') && '}' !in Join(parts, ',') && '\t' !in Join(parts, ',')
    ensures '\n' !in Join(parts, ',') && '\r' !in Join(parts, ',')
  {
    JoinNoSep(parts, ',', '{');
    JoinNoSep(parts, ',', '}');
    JoinNoSep(parts, ',', '\t');
    JoinNoSep(parts, ',', '\n');
    JoinNoSep(parts, ',', '\r');
  }

  // ----- a braced list -----

  /**
   * parseListFromString reads back a braced comma-joined list of parts
   * without separators, when the list is empty or its last part is not
   * empty, and a part that stands alone is not blank.
   */
  lemma BracedList(parts: seq<string>)
    requires forall k :: 0 <= k < |parts| ==> ListSafe(parts[k])
    requires parts != [] ==> parts[|parts| - 1] != ""
    requires |parts| == 1 ==> !IsBlank(parts[0])
    ensures ParseListFromString("{" + Join(parts, ',') + "}") == parts
  {
    var j := Join(parts, ',');
    JoinListSafe(parts);
    StripBraces(j);
    if parts == [] {
      assert Split(j, ',') == [""];
    } else {
      SplitOfJoin(parts, ',');
      if |parts| == 1 {
        assert j == parts[0];
      }
    }
  }

  // ----- a phase field -----

  lemma PhaseFieldRoundTrip(p: PhaseBounds)
    ensures ParsePhaseField(PhaseField(p)) == Some(p)
  {
    var a, b, c := IntToString(p.phaseId), IntToString(p.first), IntToString(p.last);
    IntToStringPlainAll(p.phaseId);
    IntToStringPlainAll(p.first);
    IntToStringPlainAll(p.last);
    Join3(a, b, c, ',');
    assert PhaseField(p) == "{" + Join([a, b, c], ',') + "}";
    BracedList([a, b, c]);
    ParseIntOfIntToString(p.phaseId);
    ParseIntOfIntToString(p.first);
    ParseIntOfIntToString(p.last);
  }

  /** loadPhases reads back the header getPhasesString writes. */
  lemma PhaseFieldsRoundTrip(ps: seq<PhaseBounds>)
    ensures ParsePhaseFields(HeaderFields(ps)) == Some(ps)
  {
    forall k | 0 <= k < |ps| ensures ParsePhaseField(HeaderFields(ps)[k]) == Some(ps[k]) {
      PhaseFieldRoundTrip(ps[k]);
    }
    AllSomeOf(ParsePhaseField, HeaderFields(ps), ps);
  }

  // ----- a cell list -----

  lemma CellEntryRoundTrip(p: int, v: real, fmt: real -> string, parseReal: string -> Option<real>)
    requires Writable(v, fmt, parseReal)
    ensures ListSafe(CellEntry(p, v, fmt)) && ':' in CellEntry(p, v, fmt)
    ensures ParseCellEntry(CellEntry(p, v, fmt), parseReal) == Some((p, parseReal(fmt(v)).value))
  {
    var a, f := IntToString(p), fmt(v);
    IntToStringPlainAll(p);
    Join3(a, f, "", ':');
    assert Join([a, f], ':') == a + [':'] + f;
    assert CellEntry(p, v, fmt) == Join([a, f], ':');
    SplitOfJoin([a, f], ':');
    ParseIntOfIntToString(p);
    assert CellEntry(p, v, fmt)[|a|] == ':';
  }

  lemma {:induction false} EntriesSafe(ids: seq<int>, m: map<int, real>, fmt: real -> string, parseReal: string -> Option<real>)
    requires CellsWritable(m, fmt, parseReal)
    ensures forall k :: 0 <= k < |Entries(ids, m, fmt)| ==> ListSafe(Entries(ids, m, fmt)[k]) && ':' in Entries(ids, m, fmt)[k]
    decreases |ids|
  {
    if ids != [] {
      EntriesSafe(ids[1..], m, fmt, parseReal);
      if ids[0] in m {
        CellEntryRoundTrip(ids[0], m[ids[0]], fmt, parseReal);
      }
    }
  }

  /** The entries of the listed phases that have a value, put into `acc` in order. */
  function Overlay(acc: map<int, real>, ids: seq<int>, m: map<int, real>): map<int, real>
    decreases |ids|
  {
    if ids == [] then acc
    else Overlay(if ids[0] in m then acc[ids[0] := m[ids[0]]] else acc, ids[1..], m)
  }

  lemma {:induction false} PutCellsEntries(acc: map<int, real>, ids: seq<int>, m: map<int, real>, fmt: real -> string, parseReal: string -> Option<real>)
    requires CellsWritable(m, fmt, parseReal)
    ensures PutCells(acc, Entries(ids, m, fmt), parseReal) == Some(Overlay(acc, ids, ReadBack(m, fmt, parseReal)))
    decreases |ids|
  {
    if ids != [] {
      var rest := Entries(ids[1..], m, fmt);
      if ids[0] in m {
        var e := CellEntry(ids[0], m[ids[0]], fmt);
        CellEntryRoundTrip(ids[0], m[ids[0]], fmt, parseReal);
        assert Entries(ids, m, fmt) == [e] + rest;
        assert ([e] + rest)[0] == e && ([e] + rest)[1..] == rest;
        PutCellsEntries(acc[ids[0] := ReadBack(m, fmt, parseReal)[ids[0]]], ids[1..], m, fmt, parseReal);
      } else {
        assert Entries(ids, m, fmt) == rest;
        PutCellsEntries(acc, ids[1..], m, fmt, parseReal);
      }
    }
  }

  lemma {:induction false} OverlayMeaning(acc: map<int, real>, ids: seq<int>, m: map<int, real>)
    ensures forall k :: k in Overlay(acc, ids, m) <==> k in acc || (k in ids && k in m)
    ensures forall k :: k in ids && k in m ==> Overlay(acc, ids, m)[k] == m[k]
    ensures forall k :: k in acc && !(k in ids && k in m) ==> Overlay(acc, ids, m)[k] == acc[k]
    decreases |ids|
  {
    if ids != [] {
      var acc' := if ids[0] in m then acc[ids[0] := m[ids[0]]] else acc;
      OverlayMeaning(acc', ids[1..], m);
      forall k ensures k in ids <==> k == ids[0] || k in ids[1..] {
        assert ids == [ids[0]] + ids[1..];
      }
    }
  }

  lemma NotBlankWithColon(s: string)
    requires ':' in s
    ensures !IsBlank(s)
  {
    var i :| 0 <= i < |s| && s[i] == ':';
    assert !IsWhitespace(s[i]);
  }

  lemma OverlayOfEmpty(ids: seq<int>, m: map<int, real>)
    requires forall p :: p in m ==> p in ids
    ensures Overlay(map[], ids, m) == m
  {
    OverlayMeaning(map[], ids, m);
    var o := Overlay(map[], ids, m);
    forall k ensures k in o <==> k in m {
    }
    assert o.Keys == m.Keys;
    assert forall k :: k in m ==> o[k] == m[k];
  }

  /**
   * Every key of the map among the phases: parseGroupPhaseMeasurements reads
   * the braced cell list back as the same phases, each with its value as
   * written and read.
   */
  lemma CellsRoundTrip(ids: seq<int>, m: map<int, real>, fmt: real -> string, parseReal: string -> Option<real>)
    requires CellsWritable(m, fmt, parseReal)
    requires forall p :: p in m ==> p in ids
    ensures ParseGroupPhaseMeasurements("{" + Join(Entries(ids, m, fmt), ',') + "}", parseReal) == Some(ReadBack(m, fmt, parseReal))
  {
    var es := Entries(ids, m, fmt);
    EntriesSafe(ids, m, fmt, parseReal);
    if es != [] {
      NotBlankWithColon(es[|es| - 1]);
    }
    BracedList(es);
    PutCellsEntries(map[], ids, m, fmt, parseReal);
    OverlayOfEmpty(ids, ReadBack(m, fmt, parseReal));
  }

  // ----- lines and fields -----

  lemma PhaseFieldSafe(p: PhaseBounds)
    ensures PhaseField(p) != "" && '\t' !in PhaseField(p) && '\n' !in PhaseField(p) && '\r' !in PhaseField(p)
  {
    IntToStringPlainAll(p.phaseId);
    IntToStringPlainAll(p.first);
    IntToStringPlainAll(p.last);
  }

  /** The header line split on tabs gives the phase fields. */
  lemma HeaderLine(ps: seq<PhaseBounds>)
    requires |ps| >= 1
    ensures '\n' !in Join(HeaderFields(ps), '\t') && '\r' !in Join(HeaderFields(ps), '\t')
    ensures Split(Join(HeaderFields(ps), '\t'), '\t') == HeaderFields(ps)
  {
    var hf := HeaderFields(ps);
    forall k | 0 <= k < |hf| ensures hf[k] != "" && '\t' !in hf[k] && '\n' !in hf[k] && '\r' !in hf[k] {
      PhaseFieldSafe(ps[k]);
    }
    JoinNoSep(hf, '\t', '\n');
    JoinNoSep(hf, '\t', '\r');
    SplitOfJoin(hf, '\t');
  }

  /** The three fields of a row's line. */
  function RowFields(r: GpmRow, ids: seq<int>, fmt: real -> string): seq<string>
  {
    [IntToString(r.groupId), "{" + Join(r.names, ',') + "}", "{" + Join(Entries(ids, r.cells, fmt), ',') + "}"]
  }

  lemma RowLine(r: GpmRow, ids: seq<int>, fmt: real -> string, parseReal: string -> Option<real>)
    requires CellsWritable(r.cells, fmt, parseReal) && Distinct(ids) && GoodRow(r, ids)
    ensures '\n' !in RowText(r.groupId, r.names, ids, r.cells, fmt) && '\r' !in RowText(r.groupId, r.names, ids, r.cells, fmt)
    ensures Split(RowText(r.groupId, r.names, ids, r.cells, fmt), '\t') == RowFields(r, ids, fmt)
  {
    var fields := RowFields(r, ids, fmt);
    RowTextIsJoin(r, ids, fmt);
    RowFieldsSafe(r, ids, fmt, parseReal);
    SplitOfJoin(fields, '\t');
    JoinNoSep(fields, '\t', '\n');
    JoinNoSep(fields, '\t', '\r');
  }

  /** A row's line is its three fields joined by tabs. */
  lemma RowTextIsJoin(r: GpmRow, ids: seq<int>, fmt: real -> string)
    requires Distinct(ids) && GoodRow(r, ids)
    ensures RowText(r.groupId, r.names, ids, r.cells, fmt) == Join(RowFields(r, ids, fmt), '\t')
  {
    var a, bn, bc := IntToString(r.groupId), "{" + Join(r.names, ',') + "}", "{" + Join(Entries(ids, r.cells, fmt), ',') + "}";
    EntriesCountKeys(ids, r.cells, fmt);
    RowTextFields(r.groupId, r.names, ids, r.cells, fmt);
    Join3(a, bn, bc, '\t');
  }

  /** No field of a row's line holds a tab or a line terminator, and the last one is not empty. */
  lemma RowFieldsSafe(r: GpmRow, ids: seq<int>, fmt: real -> string, parseReal: string -> Option<real>)
    requires CellsWritable(r.cells, fmt, parseReal) && GoodRow(r, ids)
    ensures forall k :: 0 <= k < 3 ==> '\t' !in RowFields(r, ids, fmt)[k] && '\n' !in RowFields(r, ids, fmt)[k] && '\r' !in RowFields(r, ids, fmt)[k]
    ensures RowFields(r, ids, fmt)[2] != ""
  {
    IntToStringPlainAll(r.groupId);
    JoinListSafe(r.names);
    EntriesSafe(ids, r.cells, fmt, parseReal);
    JoinListSafe(Entries(ids, r.cells, fmt));
  }

  /** A group line's fields parse back to the row, its values as written and read. */
  lemma RowFieldsRoundTrip(r: GpmRow, ids: seq<int>, fmt: real -> string, parseReal: string -> Option<real>)
    requires CellsWritable(r.cells, fmt, parseReal) && GoodRow(r, ids)
    ensures ParseGroupLine(RowFields(r, ids, fmt), parseReal) == Some(ReadRow(r, fmt, parseReal))
  {
    ParseIntOfIntToString(r.groupId);
    BracedList(r.names);
    CellsRoundTrip(ids, r.cells, fmt, parseReal);
  }

  // ----- the whole file -----

  /** Each group id mapped to its names, a later row replacing an earlier one with the same id. */
  function NamesOf(rows: seq<GpmRow>): map<int, seq<string>>
  {
    if rows == [] then map[]
    else NamesOf(rows[..|rows| - 1])[rows[|rows| - 1].groupId := rows[|rows| - 1].names]
  }

  /** Each group id mapped to its cell values, a later row replacing an earlier one with the same id. */
  function CellsOf(rows: seq<GpmRow>): map<int, map<int, real>>
  {
    if rows == [] then map[]
    else CellsOf(rows[..|rows| - 1])[rows[|rows| - 1].groupId := rows[|rows| - 1].cells]
  }

  /** A header line that parses to the phases, followed by lines that parse to the rows, parses to their data. */
  lemma {:induction false} ParseGpmOfLines(lines: seq<seq<string>>, ps: seq<PhaseBounds>, rows: seq<GpmRow>, parseReal: string -> Option<real>)
    requires |lines| == |rows| + 1
    requires ParsePhaseFields(lines[0]) == Some(ps)
    requires forall k :: 0 <= k < |rows| ==> ParseGroupLine(lines[k + 1], parseReal) == Some(rows[k])
    ensures ParseGpm(lines, parseReal) == Some(GpmData(ps, NamesOf(rows), CellsOf(rows)))
    decreases |rows|
  {
    if rows == [] {
      GpmHeaderStep(lines, parseReal);
      assert lines[..1] == lines;
    } else {
      var n := |rows|;
      assert ParseGroupLine(lines[n], parseReal) == Some(rows[n - 1]);
      ParseGpmOfLines(lines[..n], ps, rows[..n - 1], parseReal);
      GpmLastStep(lines, parseReal);
    }
  }

  /**
   * getGPMString read back by loadGPMData: the header gives the phases and
   * every row's line gives its id, names and values.
   */
  lemma GpmFileRoundTrip(ps: seq<PhaseBounds>, rows: seq<GpmRow>, fmt: real -> string, parseReal: string -> Option<real>)
    requires |ps| >= 1 && Distinct(PhaseIdsOf(ps))
    requires forall k :: 0 <= k < |rows| ==> GoodRow(rows[k], PhaseIdsOf(ps))
    requires RowsWritable(rows, fmt, parseReal)
    ensures ParseGpm(ReadLines(GpmString(ps, rows, fmt)), parseReal) ==
            Some(GpmData(ps, NamesOf(ReadRows(rows, fmt, parseReal)), CellsOf(ReadRows(rows, fmt, parseReal))))
  {
    var ids := PhaseIdsOf(ps);
    var lines := ReadLines(GpmString(ps, rows, fmt));
    var read := ReadRows(rows, fmt, parseReal);
    GpmLines(ps, rows, fmt, parseReal);
    PhaseFieldsRoundTrip(ps);
    forall k | 0 <= k < |rows| ensures ParseGroupLine(lines[k + 1], parseReal) == Some(read[k]) {
      RowFieldsRoundTrip(rows[k], ids, fmt, parseReal);
    }
    ParseGpmOfLines(lines, ps, read, parseReal);
  }

  /** getGPMString cut into lines and fields: the header's fields, then each row's three fields. */
  lemma GpmLines(ps: seq<PhaseBounds>, rows: seq<GpmRow>, fmt: real -> string, parseReal: string -> Option<real>)
    requires |ps| >= 1 && Distinct(PhaseIdsOf(ps))
    requires forall k :: 0 <= k < |rows| ==> GoodRow(rows[k], PhaseIdsOf(ps))
    requires RowsWritable(rows, fmt, parseReal)
    ensures |ReadLines(GpmString(ps, rows, fmt))| == |rows| + 1
    ensures ReadLines(GpmString(ps, rows, fmt))[0] == HeaderFields(ps)
    ensures forall k :: 0 <= k < |rows| ==> ReadLines(GpmString(ps, rows, fmt))[k + 1] == RowFields(rows[k], PhaseIdsOf(ps), fmt)
  {
    var ids := PhaseIdsOf(ps);
    var rts := RowTexts(rows, ids, fmt);
    RowTextsFields(rows, ids, fmt, parseReal);
    HeaderLine(ps);
    GpmTextLines(ps, rows, fmt);
    var fields := seq(|rows|, k requires 0 <= k < |rows| => RowFields(rows[k], ids, fmt));
    FieldsOfLines(GpmString(ps, rows, fmt), Join(HeaderFields(ps), '\t'), rts, HeaderFields(ps), fields);
  }

  /** Every row's line is one line, and its tab-separated fields are the row's three fields. */
  lemma RowTextsFields(rows: seq<GpmRow>, ids: seq<int>, fmt: real -> string, parseReal: string -> Option<real>)
    requires Distinct(ids) && RowsWritable(rows, fmt, parseReal)
    requires forall k :: 0 <= k < |rows| ==> GoodRow(rows[k], ids)
    ensures forall k :: 0 <= k < |rows| ==> '\n' !in RowTexts(rows, ids, fmt)[k] && '\r' !in RowTexts(rows, ids, fmt)[k]
    ensures forall k :: 0 <= k < |rows| ==> Split(RowTexts(rows, ids, fmt)[k], '\t') == RowFields(rows[k], ids, fmt)
  {
    var rts := RowTexts(rows, ids, fmt);
    forall k | 0 <= k < |rows| ensures '\n' !in rts[k] && '\r' !in rts[k] && Split(rts[k], '\t') == RowFields(rows[k], ids, fmt) {
      RowLine(rows[k], ids, fmt, parseReal);
    }
  }

  /** With no line terminator inside the header or a row's line, getGPMString's lines are the header and the rows' lines. */
  lemma GpmTextLines(ps: seq<PhaseBounds>, rows: seq<GpmRow>, fmt: real -> string)
    requires '\n' !in Join(HeaderFields(ps), '\t') && '\r' !in Join(HeaderFields(ps), '\t')
    requires forall k :: 0 <= k < |rows| ==> '\n' !in RowTexts(rows, PhaseIdsOf(ps), fmt)[k] && '\r' !in RowTexts(rows, PhaseIdsOf(ps), fmt)[k]
    ensures TextLines(GpmString(ps, rows, fmt)) == [Join(HeaderFields(ps), '\t')] + RowTexts(rows, PhaseIdsOf(ps), fmt)
  {
    var rts := RowTexts(rows, PhaseIdsOf(ps), fmt);
    var ls := [Join(HeaderFields(ps), '\t')] + rts;
    assert ls[1..] == rts;
    assert GpmString(ps, rows, fmt) == Terminated(ls, '\n');
    forall k | 0 <= k < |ls| ensures '\n' !in ls[k] && '\r' !in ls[k] {
      if k > 0 {
        assert ls[k] == rts[k - 1];
      }
    }
    TerminatedLines(ls);
  }

  /** With distinct group ids, every row's id is a key, mapped to that row's names and values, and no other id is. */
  lemma {:induction false} RowMapsMeaning(rows: seq<GpmRow>)
    requires DistinctGroups(rows)
    ensures forall g :: g in NamesOf(rows) <==> g in CellsOf(rows)
    ensures forall g :: g in NamesOf(rows) <==> exists k :: 0 <= k < |rows| && rows[k].groupId == g
    ensures forall k :: 0 <= k < |rows| ==> NamesOf(rows)[rows[k].groupId] == rows[k].names && CellsOf(rows)[rows[k].groupId] == rows[k].cells
    decreases |rows|
  {
    if rows != [] {
      var n := |rows| - 1;
      var front := rows[..n];
      assert DistinctGroups(front) by {
        forall a, b | 0 <= a < b < |front| ensures front[a].groupId != front[b].groupId {
          assert front[a] == rows[a] && front[b] == rows[b];
        }
      }
      RowMapsMeaning(front);
      forall g | g in NamesOf(rows) ensures exists k :: 0 <= k < |rows| && rows[k].groupId == g {
        if g != rows[n].groupId {
          assert g in NamesOf(front);
          var k :| 0 <= k < |front| && front[k].groupId == g;
          assert rows[k].groupId == g;
        }
      }
      forall k | 0 <= k < |rows| ensures NamesOf(rows)[rows[k].groupId] == rows[k].names && CellsOf(rows)[rows[k].groupId] == rows[k].cells {
        if k < n {
          assert rows[k] == front[k];
          assert rows[k].groupId != rows[n].groupId;
        }
      }
    }
  }

  /**
   * With distinct group ids, loadGPMData gives back the phases, maps
   * exactly the written group ids, and maps each to its row's names and
   * to its values as the number format wrote them and the parser read them.
   */
  lemma GpmFileRoundTripMeaning(ps: seq<PhaseBounds>, rows: seq<GpmRow>, fmt: real -> string, parseReal: string -> Option<real>)
    requires |ps| >= 1 && Distinct(PhaseIdsOf(ps)) && DistinctGroups(rows)
    requires forall k :: 0 <= k < |rows| ==> GoodRow(rows[k], PhaseIdsOf(ps))
    requires RowsWritable(rows, fmt, parseReal)
    ensures var r := ParseGpm(ReadLines(GpmString(ps, rows, fmt)), parseReal);
            r.Some? && r.value.phases == ps &&
            (forall g :: g in r.value.names <==> g in r.value.cells) &&
            (forall g :: g in r.value.names <==> exists k :: 0 <= k < |rows| && rows[k].groupId == g) &&
            (forall k :: 0 <= k < |rows| ==>
              r.value.names[rows[k].groupId] == rows[k].names &&
              r.value.cells[rows[k].groupId].Keys == rows[k].cells.Keys &&
              forall p :: p in rows[k].cells ==> Some(r.value.cells[rows[k].groupId][p]) == parseReal(fmt(rows[k].cells[p])))
  {
    GpmFileRoundTrip(ps, rows, fmt, parseReal);
    ReadDataMeaning(ps, rows, fmt, parseReal);
  }

  /** The data of the rows read back maps exactly their group ids, each to its row's names and its values as read back. */
  lemma ReadDataMeaning(ps: seq<PhaseBounds>, rows: seq<GpmRow>, fmt: real -> string, parseReal: string -> Option<real>)
    requires DistinctGroups(rows) && RowsWritable(rows, fmt, parseReal)
    ensures var d := GpmData(ps, NamesOf(ReadRows(rows, fmt, parseReal)), CellsOf(ReadRows(rows, fmt, parseReal)));
            (forall g :: g in d.names <==> g in d.cells) &&
            (forall g :: g in d.names <==> exists k :: 0 <= k < |rows| && rows[k].groupId == g) &&
            (forall k :: 0 <= k < |rows| ==>
              d.names[rows[k].groupId] == rows[k].names &&
              d.cells[rows[k].groupId].Keys == rows[k].cells.Keys &&
              forall p :: p in rows[k].cells ==> Some(d.cells[rows[k].groupId][p]) == parseReal(fmt(rows[k].cells[p])))
  {
    var read := ReadRows(rows, fmt, parseReal);
    ReadRowsKeepGroups(rows, fmt, parseReal);
    RowMapsMeaning(read);
  }

  predicate HasGroup(rows: seq<GpmRow>, g: int) {
    exists k :: 0 <= k < |rows| && rows[k].groupId == g
  }

  /** Reading back keeps every row's group id and names, in order, and so the distinctness of the ids. */
  lemma ReadRowsKeepGroups(rows: seq<GpmRow>, fmt: real -> string, parseReal: string -> Option<real>)
    requires RowsWritable(rows, fmt, parseReal)
    ensures var read := ReadRows(rows, fmt, parseReal);
            |read| == |rows| &&
            (forall k :: 0 <= k < |rows| ==> read[k].groupId == rows[k].groupId && read[k].names == rows[k].names && read[k].cells == ReadBack(rows[k].cells, fmt, parseReal)) &&
            (forall g :: HasGroup(read, g) <==> HasGroup(rows, g)) &&
            (DistinctGroups(rows) ==> DistinctGroups(read))
  {
    var read := ReadRows(rows, fmt, parseReal);
    forall g ensures HasGroup(read, g) <==> HasGroup(rows, g) {
      if HasGroup(rows, g) {
        var k :| 0 <= k < |rows| && rows[k].groupId == g;
        assert read[k].groupId == g;
      }
      if HasGroup(read, g) {
        var k :| 0 <= k < |read| && read[k].groupId == g;
        assert rows[k].groupId == g;
      }
    }
  }

  /** Values the parser reads back exactly read back as themselves. */
  lemma ReadRowsExact(rows: seq<GpmRow>, fmt: real -> string, parseReal: string -> Option<real>)
    requires RowsWritable(rows, fmt, parseReal)
    requires forall k, p :: 0 <= k < |rows| && p in rows[k].cells ==> parseReal(fmt(rows[k].cells[p])) == Some(rows[k].cells[p])
    ensures ReadRows(rows, fmt, parseReal) == rows
  {
    var read := ReadRows(rows, fmt, parseReal);
    forall k | 0 <= k < |rows| ensures read[k] == rows[k] {
      var m := rows[k].cells;
      forall p | p in m ensures ReadBack(m, fmt, parseReal)[p] == m[p] {
        assert parseReal(fmt(rows[k].cells[p])) == Some(rows[k].cells[p]);
      }
      assert ReadBack(m, fmt, parseReal).Keys == m.Keys;
      assert ReadBack(m, fmt, parseReal) == m;
    }
  }

  /** A number format the parser reads back exactly: the GPM data is the phases, names and values written. */
  lemma GpmFileRoundTripExact(ps: seq<PhaseBounds>, rows: seq<GpmRow>, fmt: real -> string, parseReal: string -> Option<real>)
    requires |ps| >= 1 && Distinct(PhaseIdsOf(ps))
    requires forall k :: 0 <= k < |rows| ==> GoodRow(rows[k], PhaseIdsOf(ps))
    requires forall k, p :: 0 <= k < |rows| && p in rows[k].cells ==>
               fmt(rows[k].cells[p]) != "" && Plain(fmt(rows[k].cells[p])) && parseReal(fmt(rows[k].cells[p])) == Some(rows[k].cells[p])
    ensures ParseGpm(ReadLines(GpmString(ps, rows, fmt)), parseReal) == Some(GpmData(ps, NamesOf(rows), CellsOf(rows)))
  {
    GpmFileRoundTrip(ps, rows, fmt, parseReal);
    ReadRowsExact(rows, fmt, parseReal);
  }

  // ----- a value written with a thousands separator -----

  /**
   * NumberFormat.getInstance(Locale.US) writes 1234 as "1,234". The cell
   * list "{0:1,234}" then splits into "0:1" and "234", and "234" has no ':'
   * to split at, so parseGroupPhaseMeasurements fails (Java raises
   * ArrayIndexOutOfBoundsException at FileHandler.java:153).
   */
  lemma GroupedValueUnreadable(fmt: real -> string, parseReal: string -> Option<real>)
    requires fmt(1234.0) == "1,234"
    ensures Entries([0], map[0 := 1234.0], fmt) == ["0:1,234"]
    ensures ParseGroupPhaseMeasurements("{" + Join(Entries([0], map[0 := 1234.0], fmt), ',') + "}", parseReal) == None
  {
    GroupedEntry(fmt);
    GroupedList();
    assert ':' !in "234";
    assert ParseCellEntry("234", parseReal) == None;
    assert ["0:1", "234"][1..] == ["234"];
  }

  lemma GroupedEntry(fmt: real -> string)
    requires fmt(1234.0) == "1,234"
    ensures Entries([0], map[0 := 1234.0], fmt) == ["0:1,234"]
    ensures "{" + Join(Entries([0], map[0 := 1234.0], fmt), ',') + "}" == "{0:1,234}"
  {
    assert IntToString(0) == "0";
    assert CellEntry(0, 1234.0, fmt) == "0:1,234";
    assert [0][1..] == [];
  }

  /** parseListFromString cuts "{0:1,234}" at the thousands separator. */
  lemma GroupedList()
    ensures ParseListFromString("{0:1,234}") == ["0:1", "234"]
  {
    var a: string, b: string := "0:1", "234";
    var e := a + "," + b;
    assert e == "0:1,234";
    StripBraces(e);
    assert "{" + e + "}" == "{0:1,234}";
    assert [a, b][1..] == [b];
    assert Join([a, b], ',') == e;
    assert ',' !in a && ',' !in b;
    SplitOfJoin([a, b], ',');
  }
}
