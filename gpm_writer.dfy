/**
 * The GPM text of a clustering handler's phases and chart rows, written the
 * way ClusteringHandler writes it: a StringBuilder appended to in loops.
 * The handler's own methods hand their phase list and chart rows to these.
 */
module GpmWriter {
  import opened Models
  import opened Groups
  import opened Phases
  import opened Chart
  import opened GpmText
  import Text

  ghost predicate PhasesValid(ps: seq<Phase>)
    reads ps
  {
    forall j :: 0 <= j < |ps| ==> ps[j].Valid()
  }

  /** The header view of the phases: id, first and last beat ids. */
  function BoundsOf(ps: seq<Phase>): (r: seq<PhaseBounds>)
    requires PhasesValid(ps)
    reads ps
    ensures |r| == |ps|
    ensures forall j :: 0 <= j < |ps| ==> r[j] == PhaseBounds(ps[j].phaseId, ps[j].components[0].beatId, ps[j].components[|ps[j].components| - 1].beatId)
  {
    if ps == [] then []
    else
      var p := ps[|ps| - 1];
      BoundsOf(ps[..|ps| - 1]) + [PhaseBounds(p.phaseId, p.components[0].beatId, p.components[|p.components| - 1].beatId)]
  }

  function ValuesOf(m: map<int, IMeasurement>): (r: map<int, real>)
    ensures r.Keys == m.Keys && forall p :: p in m ==> r[p] == m[p].Value()
  {
    map p | p in m :: m[p].Value()
  }

  function GpmRowOf(r: ChartGroupPhaseMeasurement): GpmRow
    reads r.entityGroup, r
  {
    GpmRow(r.entityGroup.entityGroupId, r.entityGroup.names, ValuesOf(r.measurementToPhaseMap))
  }

  function GpmRowsOf(rows: seq<ChartGroupPhaseMeasurement>): (r: seq<GpmRow>)
    reads rows, set i | 0 <= i < |rows| :: rows[i].entityGroup
    ensures |r| == |rows| && forall i :: 0 <= i < |rows| ==> r[i] == GpmRowOf(rows[i])
  {
    if rows == [] then [] else GpmRowsOf(rows[..|rows| - 1]) + [GpmRowOf(rows[|rows| - 1])]
  }

  /** getPhasesString: each phase's "{id,first,last}", a tab after all but the last, then a newline. */
  method PhasesHeader(ps: seq<PhaseBounds>) returns (s: string)
    ensures s == HeaderText(ps)
  {
    ghost var fields := HeaderFields(ps);
    var header := "";
    var i := 0;
    while i < |ps|
      invariant 0 <= i <= |ps|
      invariant header == Text.Written(fields, i, '\t', "")
    {
      var f := PhaseString(ps[i].phaseId, ps[i].first, ps[i].last);
      Text.WrittenStep(fields, i, '\t', "");
      header := header + f;
      if i < |ps| - 1 {
        header := header + "\t";
      }
      i := i + 1;
    }
    s := header + "\n";
  }

  /** generateGPMString's member part: the names, a comma after all but the last, which closes the braces. */
  method NamesPart(names: seq<string>) returns (s: string)
    ensures s == NamesText(names)
  {
    s := "";
    var i := 0;
    while i < |names|
      invariant 0 <= i <= |names|
      invariant s == Text.Written(names, i, ',', "}\t{")
    {
      Text.WrittenStep(names, i, ',', "}\t{");
      s := s + names[i];
      if i < |names| - 1 {
        s := s + ",";
      } else {
        s := s + "}\t{";
      }
      i := i + 1;
    }
  }

  /**
   * generateGPMString's cell part: phase by phase, the entry of each phase
   * the row has a value in, followed by a comma while the counter of
   * entries written is below the number of values less one.
   */
  method CellsPart(ids: seq<int>, cells: map<int, real>, fmt: real -> string) returns (s: string)
    ensures s == CellsText(ids, cells, 0, |cells|, fmt)
  {
    var n := |cells|;
    s := "";
    var c := 0;
    var j := 0;
    while j < |ids|
      invariant 0 <= j <= |ids|
      invariant s == CellsText(ids[..j], cells, 0, n, fmt) && c == |Entries(ids[..j], cells, fmt)|
    {
      var p := ids[j];
      CellsStep(ids, j, cells, n, fmt, s, c);
      if p in cells {
        var entry := Text.IntToString(p) + ":" + fmt(cells[p]);
        if c < n - 1 {
          entry := entry + ",";
        }
        s := s + entry;
        c := c + 1;
      }
      j := j + 1;
    }
    assert ids[..j] == ids;
  }

  /** generateGPMString: "id\t{", the member part, the cell part, "}". */
  method RowLine(ids: seq<int>, row: GpmRow, fmt: real -> string) returns (s: string)
    ensures s == RowText(row.groupId, row.names, ids, row.cells, fmt)
  {
    var names := NamesPart(row.names);
    var cells := CellsPart(ids, row.cells, fmt);
    s := Text.IntToString(row.groupId) + "\t{" + names + cells + "}";
  }

  /** getGPMString: the header line, then each row's line followed by a newline. */
  method GpmOf(ps: seq<PhaseBounds>, rows: seq<GpmRow>, fmt: real -> string) returns (s: string)
    ensures s == GpmString(ps, rows, fmt)
  {
    s := PhasesHeader(ps);
    ghost var head := s;
    var ids := PhaseIdsOf(ps);
    ghost var lines := RowTexts(rows, ids, fmt);
    ghost var body := "";
    var i := 0;
    while i < |rows|
      invariant 0 <= i <= |rows|
      invariant body == Text.Terminated(lines[..i], '\n') && s == head + body
    {
      var line := RowLine(ids, rows[i], fmt);
      Text.TerminatedStep(lines, i, body, '\n');
      Text.AppendAfter(head, body, line, "\n");
      s := s + line + "\n";
      body := body + line + "\n";
      i := i + 1;
    }
    assert lines[..i] == lines;
  }
}
