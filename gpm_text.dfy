/**
 * The GPM text a ClusteringHandler writes (getGPMString) as a function of
 * values: a header line of "{id,first,last}" phase fields separated by tabs,
 * then one line per chart row, "id\t{name,...}\t{phaseId:value,...}". The
 * row's cell list is written as the source writes it, with a comma after
 * every entry but the one whose counter reaches the map's size minus one;
 * the lemmas say when that is the comma-joined list.
 */
module GpmText {
  import opened Lists
  import opened Text
  import opened Phases

  /** A phase as the header records it: its id and the ids of its first and last beats. */
  datatype PhaseBounds = PhaseBounds(phaseId: int, first: int, last: int)

  function PhaseField(p: PhaseBounds): string
  {
    PhaseString(p.phaseId, p.first, p.last)
  }

  function HeaderFields(ps: seq<PhaseBounds>): (r: seq<string>)
    ensures |r| == |ps| && forall k :: 0 <= k < |ps| ==> r[k] == PhaseField(ps[k])
  {
    seq(|ps|, k requires 0 <= k < |ps| => PhaseField(ps[k]))
  }

  /** getPhasesString: the phase fields with a tab between consecutive ones, then a newline. */
  function HeaderText(ps: seq<PhaseBounds>): string
  {
    Join(HeaderFields(ps), '\t') + "\n"
  }

  function PhaseIdsOf(ps: seq<PhaseBounds>): (r: seq<int>)
    ensures |r| == |ps| && forall k :: 0 <= k < |ps| ==> r[k] == ps[k].phaseId
  {
    seq(|ps|, k requires 0 <= k < |ps| => ps[k].phaseId)
  }

  /**
   * The member part of a row: each name followed by ',' except the last,
   * which is followed by "}\t{"; with no member nothing is written at all.
   */
  function NamesText(names: seq<string>): string
  {
    if names == [] then "" else Join(names, ',') + "}\t{"
  }

  /** One cell entry, "phaseId:value", the value written by the number format. */
  function CellEntry(p: int, v: real, fmt: real -> string): string
  {
    IntToString(p) + ":" + fmt(v)
  }

  /** The entries of the phases (in list order) that have a value in the map. */
  function Entries(ids: seq<int>, m: map<int, real>, fmt: real -> string): (r: seq<string>)
    ensures |r| <= |ids|
  {
    if ids == [] then []
    else (if ids[0] in m then [CellEntry(ids[0], m[ids[0]], fmt)] else []) + Entries(ids[1..], m, fmt)
  }

  /**
   * The cell part as written: the counter `i` counts the entries written so
   * far, and an entry is followed by ',' while i < n - 1, n being the
   * number of entries in the map.
   */
  function CellsText(ids: seq<int>, m: map<int, real>, i: int, n: int, fmt: real -> string): string
  {
    if ids == [] then ""
    else if ids[0] in m then
      CellEntry(ids[0], m[ids[0]], fmt) + (if i < n - 1 then "," else "") + CellsText(ids[1..], m, i + 1, n, fmt)
    else CellsText(ids[1..], m, i, n, fmt)
  }

  /** generateGPMString: "id\t{", the member part, the cell part, "}". */
  function RowText(groupId: int, names: seq<string>, ids: seq<int>, m: map<int, real>, fmt: real -> string): string
  {
    IntToString(groupId) + "\t{" + NamesText(names) + CellsText(ids, m, 0, |m|, fmt) + "}"
  }

  /** A chart row as the GPM text needs it: the group id, the member names and the value of each phase's entry. */
  datatype GpmRow = GpmRow(groupId: int, names: seq<string>, cells: map<int, real>)

  function RowTexts(rows: seq<GpmRow>, ids: seq<int>, fmt: real -> string): (r: seq<string>)
    ensures |r| == |rows| && forall k :: 0 <= k < |rows| ==> r[k] == RowText(rows[k].groupId, rows[k].names, ids, rows[k].cells, fmt)
  {
    seq(|rows|, k requires 0 <= k < |rows| => RowText(rows[k].groupId, rows[k].names, ids, rows[k].cells, fmt))
  }

  /** getGPMString: the header, then each row's line followed by a newline. */
  function GpmString(ps: seq<PhaseBounds>, rows: seq<GpmRow>, fmt: real -> string): string
  {
    HeaderText(ps) + Terminated(RowTexts(rows, PhaseIdsOf(ps), fmt), '\n')
  }

  // ----- when the as-written cell part is the comma-joined entries -----

  /**
   * With the counter starting at the number of entries still to come below
   * n, the cell part is exactly the entries joined by commas.
   */
  lemma {:induction false} CellsTextJoin(ids: seq<int>, m: map<int, real>, i: int, fmt: real -> string)
    ensures CellsText(ids, m, i, i + |Entries(ids, m, fmt)|, fmt) == Join(Entries(ids, m, fmt), ',')
    decreases |ids|
  {
    if ids != [] {
      var n := i + |Entries(ids, m, fmt)|;
      var rest := Entries(ids[1..], m, fmt);
      if ids[0] in m {
        CellsTextJoin(ids[1..], m, i + 1, fmt);
        var e := CellEntry(ids[0], m[ids[0]], fmt);
        assert Entries(ids, m, fmt) == [e] + rest;
        if rest == [] {
          assert Join([e] + rest, ',') == e;
        } else {
          assert ([e] + rest)[1..] == rest;
        }
      } else {
        CellsTextJoin(ids[1..], m, i, fmt);
        assert Entries(ids, m, fmt) == rest;
      }
    }
  }

  /** The phase ids that have an entry. */
  function Present(ids: seq<int>, m: map<int, real>): (r: seq<int>)
    ensures forall x :: x in r <==> x in ids && x in m
  {
    if ids == [] then []
    else (if ids[0] in m then [ids[0]] else []) + Present(ids[1..], m)
  }

  lemma {:induction false} PresentCount(ids: seq<int>, m: map<int, real>, fmt: real -> string)
    ensures |Entries(ids, m, fmt)| == |Present(ids, m)|
    ensures Distinct(ids) ==> Distinct(Present(ids, m))
    decreases |ids|
  {
    if ids != [] {
      PresentCount(ids[1..], m, fmt);
      if Distinct(ids) {
        assert Distinct(ids[1..]) by {
          forall a, b | 0 <= a < b < |ids[1..]| ensures ids[1..][a] != ids[1..][b] {
            assert ids[a + 1] != ids[b + 1];
          }
        }
        if ids[0] in m {
          var p := Present(ids, m);
          var rest := Present(ids[1..], m);
          assert p == [ids[0]] + rest;
          assert ids[0] !in rest;
          forall a, b | 0 <= a < b < |p| ensures p[a] != p[b] {
            if a == 0 {
              assert p[b] == rest[b - 1];
            } else {
              assert p[a] == rest[a - 1] && p[b] == rest[b - 1];
            }
          }
        }
      }
    }
  }

  /**
   * When the phase ids are distinct and every key of the map is one of
   * them, there is one entry per key, so the counter bound n = |m| is the
   * number of entries.
   */
  lemma EntriesCountKeys(ids: seq<int>, m: map<int, real>, fmt: real -> string)
    requires Distinct(ids) && forall p :: p in m ==> p in ids
    ensures |Entries(ids, m, fmt)| == |m|
  {
    PresentCount(ids, m, fmt);
    var p := Present(ids, m);
    ElementCount(p);
    assert (set x | x in p) == m.Keys by {
      forall x ensures x in (set x | x in p) <==> x in m.Keys {
      }
    }
    assert |m.Keys| == |m|;
  }

  lemma RowTextIs(groupId: int, names: seq<string>, ids: seq<int>, m: map<int, real>, fmt: real -> string)
    ensures RowText(groupId, names, ids, m, fmt) == IntToString(groupId) + "\t{" + NamesText(names) + CellsText(ids, m, 0, |m|, fmt) + "}"
  {
  }

  lemma FieldsConcat(a: string, jn: string, jc: string)
    ensures a + "\t{" + (jn + "}\t{") + jc + "}" == a + ['\t'] + ("{" + jn + "}") + ['\t'] + ("{" + jc + "}")
  {
    assert "\t{" == ['\t'] + "{";
    assert "}\t{" == "}" + ['\t'] + "{";
  }

  /**
   * When there is one entry per key of the map (EntriesCountKeys), a row's
   * line is its three tab-separated fields: the group id, the braced member
   * names and the braced cell entries.
   */
  lemma RowTextFields(groupId: int, names: seq<string>, ids: seq<int>, m: map<int, real>, fmt: real -> string)
    requires |names| >= 1
    requires |Entries(ids, m, fmt)| == |m|
    ensures RowText(groupId, names, ids, m, fmt)
            == IntToString(groupId) + "\t" + ("{" + Join(names, ',') + "}") + "\t" + ("{" + Join(Entries(ids, m, fmt), ',') + "}")
  {
    var a, jn, jc := IntToString(groupId), Join(names, ','), Join(Entries(ids, m, fmt), ',');
    var nt, ct := NamesText(names), CellsText(ids, m, 0, |m|, fmt);
    assert ct == jc by {
      CellsTextJoin(ids, m, 0, fmt);
    }
    assert nt == jn + "}\t{";
    RowTextIs(groupId, names, ids, m, fmt);
    assert RowText(groupId, names, ids, m, fmt) == a + "\t{" + (jn + "}\t{") + jc + "}";
    FieldsConcat(a, jn, jc);
  }

  // ----- the cell part, one phase at a time -----

  lemma {:induction false} EntriesAppend(ids: seq<int>, x: int, m: map<int, real>, fmt: real -> string)
    ensures Entries(ids + [x], m, fmt) == Entries(ids, m, fmt) + Entries([x], m, fmt)
    decreases |ids|
  {
    if ids == [] {
      assert ids + [x] == [x];
    } else {
      assert (ids + [x])[0] == ids[0] && (ids + [x])[1..] == ids[1..] + [x];
      EntriesAppend(ids[1..], x, m, fmt);
    }
  }

  /** The cell part of one more phase continues with the counter at the number of entries so far. */
  lemma {:induction false} CellsTextAppend(ids: seq<int>, x: int, m: map<int, real>, i: int, n: int, fmt: real -> string)
    ensures CellsText(ids + [x], m, i, n, fmt) == CellsText(ids, m, i, n, fmt) + CellsText([x], m, i + |Entries(ids, m, fmt)|, n, fmt)
    decreases |ids|
  {
    if ids == [] {
      assert ids + [x] == [x];
    } else {
      var a, t := ids[0], ids[1..];
      assert (ids + [x])[0] == a && (ids + [x])[1..] == t + [x];
      if a in m {
        var head := CellEntry(a, m[a], fmt) + (if i < n - 1 then "," else "");
        var last := CellsText([x], m, i + 1 + |Entries(t, m, fmt)|, n, fmt);
        CellsTextAppend(t, x, m, i + 1, n, fmt);
        assert Entries(ids, m, fmt) == [CellEntry(a, m[a], fmt)] + Entries(t, m, fmt);
        calc {
          CellsText(ids + [x], m, i, n, fmt);
          head + CellsText(t + [x], m, i + 1, n, fmt);
          head + (CellsText(t, m, i + 1, n, fmt) + last);
          (head + CellsText(t, m, i + 1, n, fmt)) + last;
          CellsText(ids, m, i, n, fmt) + last;
        }
      } else {
        CellsTextAppend(t, x, m, i, n, fmt);
        assert Entries(ids, m, fmt) == Entries(t, m, fmt);
        assert CellsText(ids + [x], m, i, n, fmt) == CellsText(t + [x], m, i, n, fmt);
      }
    }
  }

  lemma CellsTextOne(x: int, m: map<int, real>, i: int, n: int, fmt: real -> string)
    ensures CellsText([x], m, i, n, fmt) == if x in m then CellEntry(x, m[x], fmt) + (if i < n - 1 then "," else "") else ""
    ensures |Entries([x], m, fmt)| == if x in m then 1 else 0
  {
    assert [x][1..] == [];
  }

  /** The cell part of the first j + 1 phases: that of the first j, then phase j's entry if it has one. */
  lemma CellsStep(ids: seq<int>, j: int, m: map<int, real>, n: int, fmt: real -> string, acc: string, c: int)
    requires 0 <= j < |ids| && acc == CellsText(ids[..j], m, 0, n, fmt) && c == |Entries(ids[..j], m, fmt)|
    ensures CellsText(ids[..j + 1], m, 0, n, fmt)
            == acc + (if ids[j] in m then CellEntry(ids[j], m[ids[j]], fmt) + (if c < n - 1 then "," else "") else "")
    ensures |Entries(ids[..j + 1], m, fmt)| == c + (if ids[j] in m then 1 else 0)
  {
    assert ids[..j + 1] == ids[..j] + [ids[j]];
    CellsTextAppend(ids[..j], ids[j], m, 0, n, fmt);
    EntriesAppend(ids[..j], ids[j], m, fmt);
    CellsTextOne(ids[j], m, c, n, fmt);
  }
}
