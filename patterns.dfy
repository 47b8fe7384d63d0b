/**
 * Pattern mining over the summarised grid: the per-phase births / updates /
 * deaths buckets (BDUAlgo), the ladder of consecutive birth lists
 * (LadderAlgo), and the handler that prepares the birth lists and
 * dispatches on the requested pattern kind (PatternComputationHandler).
 *
 * The miners read a chart row only through its entity group (member names
 * and life details) and the phase ids it holds a measurement for, and a
 * phase only through its id and the ids of its first and last beats; both
 * are passed in as values.
 */
module Patterns {
  import opened Wrappers
  import opened Kinds
  import opened Models
  import opened Groups
  import opened Lists
  import opened GpmText

  /** A chart row as the miners see it: the group's member names, its life details, the phases with a measurement. */
  datatype RowView = RowView(names: seq<string>, life: LifeDetails, measured: set<int>)

  /** getGroupComponentsNames().get(0) is defined: every group has a member. */
  predicate Named(rows: seq<RowView>) {
    forall i :: 0 <= i < |rows| ==> |rows[i].names| >= 1
  }

  /** The cell a row contributes in a phase: its first member's name and the phase id. */
  function CellOf(r: RowView, p: PhaseBounds): CellInfo
    requires |r.names| >= 1
  {
    CellInfo(r.names[0], p.phaseId)
  }

  /** The bucket a row falls into in a phase, if any: BIRTH, ACTIVE with a measurement, DEATH. */
  function Classify(r: RowView, p: PhaseBounds): Option<PatternType>
  {
    var t := GPMTypeOf(r.life, p.first, p.last);
    if t == BIRTH then Some(MULTIPLE_BIRTHS)
    else if t == ACTIVE && p.phaseId in r.measured then Some(MULTIPLE_UPDATES)
    else if t == DEATH then Some(MULTIPLE_DEATHS)
    else None
  }

  /** Every row lands in exactly one bucket or in none, as the lifecycle type says. */
  lemma ClassifyMeaning(r: RowView, p: PhaseBounds)
    ensures Classify(r, p) == Some(MULTIPLE_BIRTHS) <==> PhaseContainsBeat(p.first, p.last, r.life.birthBeatId)
    ensures Classify(r, p) == Some(MULTIPLE_DEATHS) <==>
              !PhaseContainsBeat(p.first, p.last, r.life.birthBeatId) && !r.life.isAlive && PhaseContainsBeat(p.first, p.last, r.life.deathBeatId)
    ensures Classify(r, p) == Some(MULTIPLE_UPDATES) <==> GPMTypeOf(r.life, p.first, p.last) == ACTIVE && p.phaseId in r.measured
    ensures Classify(r, p).None? <==>
              GPMTypeOf(r.life, p.first, p.last) == INACTIVE || (GPMTypeOf(r.life, p.first, p.last) == ACTIVE && p.phaseId !in r.measured)
    ensures Classify(r, p).Some? ==> Classify(r, p).value in {MULTIPLE_BIRTHS, MULTIPLE_UPDATES, MULTIPLE_DEATHS}
  {
  }

  /** The cells of the rows that fall into bucket `kind` in phase p, in row order. */
  function Bucket(rows: seq<RowView>, p: PhaseBounds, kind: PatternType): seq<CellInfo>
    requires Named(rows)
  {
    if rows == [] then []
    else
      var last := rows[|rows| - 1];
      Bucket(rows[..|rows| - 1], p, kind) + (if Classify(last, p) == Some(kind) then [CellOf(last, p)] else [])
  }

  /** The number of rows that fall into no bucket in phase p. */
  function Silent(rows: seq<RowView>, p: PhaseBounds): nat
  {
    if rows == [] then 0
    else Silent(rows[..|rows| - 1], p) + (if Classify(rows[|rows| - 1], p).None? then 1 else 0)
  }

  /** A bucket holds exactly the cells of the rows classified into it, all in phase p. */
  lemma {:induction false} BucketMembership(rows: seq<RowView>, p: PhaseBounds, kind: PatternType)
    requires Named(rows)
    ensures forall c :: c in Bucket(rows, p, kind) <==>
              exists i :: 0 <= i < |rows| && Classify(rows[i], p) == Some(kind) && c == CellOf(rows[i], p)
    ensures forall c :: c in Bucket(rows, p, kind) ==> c.phaseId == p.phaseId
    decreases |rows|
  {
    if rows != [] {
      var n := |rows|;
      var front := rows[..n - 1];
      BucketMembership(front, p, kind);
      assert forall i :: 0 <= i < n - 1 ==> front[i] == rows[i];
      forall c ensures c in Bucket(rows, p, kind) <==>
                      exists i :: 0 <= i < n && Classify(rows[i], p) == Some(kind) && c == CellOf(rows[i], p) {
        if c in Bucket(front, p, kind) {
          var i :| 0 <= i < n - 1 && Classify(front[i], p) == Some(kind) && c == CellOf(front[i], p);
          assert rows[i] == front[i];
        }
      }
    }
  }

  /** The three buckets and the silent rows account for every row once. */
  lemma {:induction false} BucketSizes(rows: seq<RowView>, p: PhaseBounds)
    requires Named(rows)
    ensures |Bucket(rows, p, MULTIPLE_BIRTHS)| + |Bucket(rows, p, MULTIPLE_UPDATES)| + |Bucket(rows, p, MULTIPLE_DEATHS)| + Silent(rows, p) == |rows|
    decreases |rows|
  {
    if rows != [] {
      BucketSizes(rows[..|rows| - 1], p);
      ClassifyMeaning(rows[|rows| - 1], p);
    }
  }

  /** A bucket becomes a pattern only when it holds strictly more cells than the threshold. */
  function Above(kind: PatternType, cells: seq<CellInfo>, threshold: int): seq<PatternData>
  {
    if |cells| > threshold then [PatternData(kind, cells)] else []
  }

  /** The kinds the BDU miner reports for a requested kind: that one, or all three in birth, update, death order. */
  function BduKinds(kind: PatternType): seq<PatternType>
  {
    if kind == MULTIPLE_BIRTHS || kind == MULTIPLE_UPDATES || kind == MULTIPLE_DEATHS then [kind]
    else [MULTIPLE_BIRTHS, MULTIPLE_UPDATES, MULTIPLE_DEATHS]
  }

  /** The patterns the requested kind selects from a phase's three buckets, births before updates before deaths. */
  function Selected(births: seq<CellInfo>, updates: seq<CellInfo>, deaths: seq<CellInfo>, threshold: int, kind: PatternType): seq<PatternData>
  {
    if kind == MULTIPLE_BIRTHS then Above(MULTIPLE_BIRTHS, births, threshold)
    else if kind == MULTIPLE_UPDATES then Above(MULTIPLE_UPDATES, updates, threshold)
    else if kind == MULTIPLE_DEATHS then Above(MULTIPLE_DEATHS, deaths, threshold)
    else Above(MULTIPLE_BIRTHS, births, threshold) + Above(MULTIPLE_UPDATES, updates, threshold) + Above(MULTIPLE_DEATHS, deaths, threshold)
  }

  /** The patterns of one phase: each reported kind's bucket, when above the threshold. */
  function PhasePatterns(rows: seq<RowView>, p: PhaseBounds, threshold: int, kind: PatternType): seq<PatternData>
    requires Named(rows)
  {
    Selected(Bucket(rows, p, MULTIPLE_BIRTHS), Bucket(rows, p, MULTIPLE_UPDATES), Bucket(rows, p, MULTIPLE_DEATHS), threshold, kind)
  }

  /** BDUAlgo.FindPattern: the phases' patterns in phase order. */
  function BduPatterns(rows: seq<RowView>, phases: seq<PhaseBounds>, threshold: int, kind: PatternType): seq<PatternData>
    requires Named(rows)
  {
    if phases == [] then []
    else BduPatterns(rows, phases[..|phases| - 1], threshold, kind) + PhasePatterns(rows, phases[|phases| - 1], threshold, kind)
  }

  /** q is phase p's bucket of a reported kind, and it exceeds the threshold. */
  predicate Hit(rows: seq<RowView>, p: PhaseBounds, threshold: int, kind: PatternType, q: PatternData)
    requires Named(rows)
  {
    q.patternType in BduKinds(kind) && q.cells == Bucket(rows, p, q.patternType) && |q.cells| > threshold
  }

  /** Phase p's patterns are exactly its buckets of the reported kinds that exceed the threshold. */
  lemma PhasePatternsMeaning(rows: seq<RowView>, p: PhaseBounds, threshold: int, kind: PatternType)
    requires Named(rows)
    ensures forall q :: q in PhasePatterns(rows, p, threshold, kind) <==> Hit(rows, p, threshold, kind, q)
  {
  }

  /**
   * The BDU patterns are exactly the buckets of the reported kinds, over all
   * phases, that hold more cells than the threshold.
   */
  lemma BduPatternsMeaning(rows: seq<RowView>, phases: seq<PhaseBounds>, threshold: int, kind: PatternType)
    requires Named(rows)
    ensures forall q :: q in BduPatterns(rows, phases, threshold, kind) <==>
              exists j :: 0 <= j < |phases| && Hit(rows, phases[j], threshold, kind, q)
  {
    forall q ensures q in BduPatterns(rows, phases, threshold, kind) <==>
                     exists j :: 0 <= j < |phases| && Hit(rows, phases[j], threshold, kind, q) {
      BduPatternsHas(rows, phases, threshold, kind, q);
    }
  }

  /** One pattern at a time: q is reported exactly when some phase's bucket makes it a hit. */
  lemma {:induction false} BduPatternsHas(rows: seq<RowView>, phases: seq<PhaseBounds>, threshold: int, kind: PatternType, q: PatternData)
    requires Named(rows)
    ensures q in BduPatterns(rows, phases, threshold, kind) <==>
              exists j :: 0 <= j < |phases| && Hit(rows, phases[j], threshold, kind, q)
    decreases |phases|
  {
    if phases != [] {
      var n := |phases|;
      var front := phases[..n - 1];
      BduPatternsHas(rows, front, threshold, kind, q);
      PhasePatternsMeaning(rows, phases[n - 1], threshold, kind);
      if exists j :: 0 <= j < n && Hit(rows, phases[j], threshold, kind, q) {
        var j :| 0 <= j < n && Hit(rows, phases[j], threshold, kind, q);
        if j < n - 1 {
          assert front[j] == phases[j];
        }
      }
      if q in BduPatterns(rows, front, threshold, kind) {
        var j :| 0 <= j < n - 1 && Hit(rows, front[j], threshold, kind, q);
        assert front[j] == phases[j];
      }
    }
  }

  /** The bucket of two runs of rows is the bucket of the first followed by that of the second. */
  lemma {:induction false} BucketAppend(a: seq<RowView>, b: seq<RowView>, p: PhaseBounds, kind: PatternType)
    requires Named(a) && Named(b)
    ensures Named(a + b)
    ensures Bucket(a + b, p, kind) == Bucket(a, p, kind) + Bucket(b, p, kind)
    decreases |b|
  {
    if b == [] {
      assert a + b == a;
    } else {
      var n := |b|;
      var ab := a + b;
      assert ab[..|ab| - 1] == a + b[..n - 1];
      assert ab[|ab| - 1] == b[n - 1];
      BucketAppend(a, b[..n - 1], p, kind);
    }
  }

  /** A row that falls into no bucket adds no cell: removing it leaves every bucket as it was. */
  lemma SilentRowUnreported(rows: seq<RowView>, p: PhaseBounds, kind: PatternType, i: int)
    requires Named(rows) && 0 <= i < |rows| && Classify(rows[i], p).None?
    ensures Named(RemoveAt(rows, i))
    ensures Bucket(rows, p, kind) == Bucket(RemoveAt(rows, i), p, kind)
  {
    var before, after := rows[..i], rows[i + 1..];
    assert Named(before) && Named(after) && Named([rows[i]]);
    var mid := before + [rows[i]];
    BucketAppend(before, [rows[i]], p, kind);
    assert Bucket([rows[i]], p, kind) == [];
    assert Bucket(mid, p, kind) == Bucket(before, p, kind);
    SplitAt(rows, i);
    BucketAppend(mid, after, p, kind);
    var rest := before + after;
    BucketAppend(before, after, p, kind);
    assert RemoveAt(rows, i) == rest;
  }

  /** The three buckets of one phase, filled by one pass over the rows as the inner loop of FindPattern does. */
  method FillBuckets(rows: seq<RowView>, p: PhaseBounds) returns (births: seq<CellInfo>, updates: seq<CellInfo>, deaths: seq<CellInfo>)
    requires Named(rows)
    ensures births == Bucket(rows, p, MULTIPLE_BIRTHS)
    ensures updates == Bucket(rows, p, MULTIPLE_UPDATES)
    ensures deaths == Bucket(rows, p, MULTIPLE_DEATHS)
  {
    births, updates, deaths := [], [], [];
    for i := 0 to |rows|
      invariant births == Bucket(rows[..i], p, MULTIPLE_BIRTHS)
      invariant updates == Bucket(rows[..i], p, MULTIPLE_UPDATES)
      invariant deaths == Bucket(rows[..i], p, MULTIPLE_DEATHS)
    {
      var t := GPMTypeOf(rows[i].life, p.first, p.last);
      var cell := CellInfo(rows[i].names[0], p.phaseId);
      assert rows[..i + 1][..i] == rows[..i] && rows[..i + 1][i] == rows[i];
      if t == BIRTH {
        births := births + [cell];
      } else if t == ACTIVE && p.phaseId in rows[i].measured {
        updates := updates + [cell];
      } else if t == DEATH {
        deaths := deaths + [cell];
      }
    }
    assert rows[..|rows|] == rows;
  }

  /** The patterns of the first j + 1 phases: those of the first j, then phase j's. */
  lemma BduPatternsStep(rows: seq<RowView>, phases: seq<PhaseBounds>, threshold: int, kind: PatternType, j: int)
    requires Named(rows) && 0 <= j < |phases|
    ensures BduPatterns(rows, phases[..j + 1], threshold, kind) == BduPatterns(rows, phases[..j], threshold, kind) + PhasePatterns(rows, phases[j], threshold, kind)
  {
    var ps := phases[..j + 1];
    assert ps[..|ps| - 1] == phases[..j] && ps[|ps| - 1] == phases[j];
  }

  /** The selection at the end of one phase's round: the buckets above the threshold that the kind asks for. */
  method SelectPatterns(births: seq<CellInfo>, updates: seq<CellInfo>, deaths: seq<CellInfo>, threshold: int, kind: PatternType)
    returns (found: seq<PatternData>)
    ensures found == Selected(births, updates, deaths, threshold, kind)
  {
    found := [];
    if kind == MULTIPLE_BIRTHS {
      if |births| > threshold {
        found := found + [PatternData(MULTIPLE_BIRTHS, births)];
      }
    } else if kind == MULTIPLE_UPDATES {
      if |updates| > threshold {
        found := found + [PatternData(MULTIPLE_UPDATES, updates)];
      }
    } else if kind == MULTIPLE_DEATHS {
      if |deaths| > threshold {
        found := found + [PatternData(MULTIPLE_DEATHS, deaths)];
      }
    } else {
      if |births| > threshold {
        found := found + [PatternData(MULTIPLE_BIRTHS, births)];
      }
      if |updates| > threshold {
        found := found + [PatternData(MULTIPLE_UPDATES, updates)];
      }
      if |deaths| > threshold {
        found := found + [PatternData(MULTIPLE_DEATHS, deaths)];
      }
    }
  }

  /** BDUAlgo.FindPattern: per phase, the three buckets, then the patterns the requested kind selects. */
  method FindBduPatterns(rows: seq<RowView>, phases: seq<PhaseBounds>, threshold: int, kind: PatternType) returns (patternList: seq<PatternData>)
    requires Named(rows)
    ensures patternList == BduPatterns(rows, phases, threshold, kind)
  {
    patternList := [];
    for j := 0 to |phases|
      invariant patternList == BduPatterns(rows, phases[..j], threshold, kind)
    {
      var births, updates, deaths := FillBuckets(rows, phases[j]);
      var found := SelectPatterns(births, updates, deaths, threshold, kind);
      BduPatternsStep(rows, phases, threshold, kind, j);
      patternList := patternList + found;
    }
    assert phases[..|phases|] == phases;
  }

  // ----- LadderAlgo -----

  /** List.indexOf: the first position of x, or -1. */
  function IndexOf(names: seq<string>, x: string): int
  {
    if names == [] then -1
    else if names[0] == x then 0
    else
      var r := IndexOf(names[1..], x);
      if r == -1 then -1 else r + 1
  }

  /** IndexOf is -1 exactly when x is absent, and otherwise the first position holding x. */
  lemma {:induction false} IndexOfMeaning(names: seq<string>, x: string)
    ensures -1 <= IndexOf(names, x) < |names|
    ensures IndexOf(names, x) == -1 <==> x !in names
    ensures IndexOf(names, x) >= 0 ==> names[IndexOf(names, x)] == x && forall k :: 0 <= k < IndexOf(names, x) ==> names[k] != x
    decreases |names|
  {
    if names != [] && names[0] != x {
      IndexOfMeaning(names[1..], x);
      assert forall k :: 1 <= k < |names| ==> names[k] == names[1..][k - 1];
    }
  }

  /** Every birth list has a first and a last cell. */
  predicate Filled(lists: seq<seq<CellInfo>>) {
    forall j :: 0 <= j < |lists| ==> |lists[j]| >= 1
  }

  lemma FilledAppend(a: seq<seq<CellInfo>>, b: seq<seq<CellInfo>>)
    requires Filled(a) && Filled(b)
    ensures Filled(a + b)
  {
    forall j | 0 <= j < |a + b| ensures |(a + b)[j]| >= 1 {
      if j < |a| {
        assert (a + b)[j] == a[j];
      } else {
        assert (a + b)[j] == b[j - |a|];
      }
    }
  }

  /** The phase gap of link j: the first cell of list j + 1 against the last cell of list j. */
  function PhaseGap(lists: seq<seq<CellInfo>>, j: int): int
    requires Filled(lists) && 0 <= j < |lists| - 1
  {
    lists[j + 1][0].phaseId - lists[j][|lists[j]| - 1].phaseId
  }

  /** The position gap of link j: the same two cells' positions in the name order (-1 when absent). */
  function PositionGap(lists: seq<seq<CellInfo>>, order: seq<string>, j: int): int
    requires Filled(lists) && 0 <= j < |lists| - 1
  {
    IndexOf(order, lists[j + 1][0].entityName) - IndexOf(order, lists[j][|lists[j]| - 1].entityName)
  }

  /** Link j continues the ladder when both signed gaps are at most 3. */
  predicate Links(lists: seq<seq<CellInfo>>, order: seq<string>, j: int)
    requires Filled(lists) && 0 <= j < |lists| - 1
  {
    PhaseGap(lists, j) <= 3 && PositionGap(lists, order, j) <= 3
  }

  /** Every cell is taken from one of the lists. */
  ghost predicate FromLists(cells: seq<CellInfo>, lists: seq<seq<CellInfo>>) {
    forall c :: c in cells ==> exists j :: 0 <= j < |lists| && c in lists[j]
  }

  lemma FromListsAppend(cells: seq<CellInfo>, lists: seq<seq<CellInfo>>, k: int)
    requires FromLists(cells, lists) && 0 <= k < |lists|
    ensures FromLists(cells + lists[k], lists)
  {
    forall c | c in cells + lists[k] ensures exists j :: 0 <= j < |lists| && c in lists[j] {
      if c !in cells {
        assert c in lists[k];
      }
    }
  }

  /** The scan's state: the patterns so far, the cell buffer and the run length. */
  datatype LadderState = LadderState(patterns: seq<PatternData>, buffer: seq<CellInfo>, run: int)

  /** A flush: the deduplicated buffer as one LADDER pattern when the run is long enough. */
  function Flush(s: LadderState, threshold: int): seq<PatternData>
  {
    if s.run >= threshold then [PatternData(LADDER, Dedup(s.buffer))] else []
  }

  /** The state after links 0 .. n - 1. */
  function LadderScan(lists: seq<seq<CellInfo>>, order: seq<string>, threshold: int, n: int): LadderState
    requires Filled(lists) && 0 <= n && (n == 0 || n < |lists|)
  {
    if n == 0 then LadderState([], [], 1)
    else
      var s := LadderScan(lists, order, threshold, n - 1);
      if Links(lists, order, n - 1) then LadderState(s.patterns, s.buffer + lists[n - 1] + lists[n], s.run + 1)
      else LadderState(s.patterns + Flush(s, threshold), [], 1)
  }

  /** One more link either extends the run and its buffer or flushes and restarts them;
      `linked` is the link test on the last cell of list j and the first cell of list j + 1. */
  lemma LadderScanStep(lists: seq<seq<CellInfo>>, order: seq<string>, threshold: int, j: int,
                       patterns: seq<PatternData>, buffer: seq<CellInfo>, run: int, linked: bool)
    requires Filled(lists) && 0 <= j < |lists| - 1
    requires LadderScan(lists, order, threshold, j) == LadderState(patterns, buffer, run)
    requires |lists[j]| >= 1 && |lists[j + 1]| >= 1
    requires linked <==>
      lists[j + 1][0].phaseId - lists[j][|lists[j]| - 1].phaseId <= 3
      && IndexOf(order, lists[j + 1][0].entityName) - IndexOf(order, lists[j][|lists[j]| - 1].entityName) <= 3
    ensures linked ==>
      LadderScan(lists, order, threshold, j + 1) == LadderState(patterns, buffer + lists[j] + lists[j + 1], run + 1)
    ensures !linked && run >= threshold ==>
      LadderScan(lists, order, threshold, j + 1) == LadderState(patterns + [PatternData(LADDER, Dedup(buffer))], [], 1)
    ensures !linked && run < threshold ==>
      LadderScan(lists, order, threshold, j + 1) == LadderState(patterns, [], 1)
  {
    assert Links(lists, order, j) == linked;
  }

  /** The number of links the scan visits: one fewer than the lists, none for fewer than two. */
  function LinkCount(lists: seq<seq<CellInfo>>): nat
  {
    if |lists| <= 1 then 0 else |lists| - 1
  }

  /** LadderAlgo.FindPattern: the patterns of the scan, then the final flush. */
  function LadderPatterns(lists: seq<seq<CellInfo>>, order: seq<string>, threshold: int): seq<PatternData>
    requires Filled(lists)
  {
    var s := LadderScan(lists, order, threshold, LinkCount(lists));
    s.patterns + Flush(s, threshold)
  }

  /** The run length counts the links since the last break plus one; the buffer is empty exactly when that is 1. */
  lemma {:induction false} LadderScanShape(lists: seq<seq<CellInfo>>, order: seq<string>, threshold: int, n: int)
    requires Filled(lists) && 0 <= n && (n == 0 || n < |lists|)
    ensures 1 <= LadderScan(lists, order, threshold, n).run <= n + 1
    ensures LadderScan(lists, order, threshold, n).buffer == [] <==> LadderScan(lists, order, threshold, n).run == 1
    ensures |LadderScan(lists, order, threshold, n).patterns| <= n
    ensures forall q :: q in LadderScan(lists, order, threshold, n).patterns ==> q.patternType == LADDER && Distinct(q.cells)
    ensures FromLists(LadderScan(lists, order, threshold, n).buffer, lists)
    decreases n
  {
    if n > 0 {
      LadderScanShape(lists, order, threshold, n - 1);
      var s := LadderScan(lists, order, threshold, n - 1);
      DedupMeaning(s.buffer);
      if Links(lists, order, n - 1) {
        assert |lists[n - 1]| >= 1;
        FromListsAppend(s.buffer, lists, n - 1);
        FromListsAppend(s.buffer + lists[n - 1], lists, n);
      }
    }
  }

  /**
   * Every LADDER pattern lists distinct cells, each taken from a birth list;
   * there is at most one pattern per link plus the final flush.
   */
  lemma LadderPatternsShape(lists: seq<seq<CellInfo>>, order: seq<string>, threshold: int)
    requires Filled(lists)
    ensures |LadderPatterns(lists, order, threshold)| <= LinkCount(lists) + 1
    ensures forall q :: q in LadderPatterns(lists, order, threshold) ==> q.patternType == LADDER && Distinct(q.cells)
    ensures forall q :: q in LadderPatterns(lists, order, threshold) ==> FromLists(q.cells, lists)
  {
    var s := LadderScan(lists, order, threshold, LinkCount(lists));
    LadderScanShape(lists, order, threshold, LinkCount(lists));
    DedupMeaning(s.buffer);
    assert LadderPatterns(lists, order, threshold) == s.patterns + Flush(s, threshold);
    LadderCellsFromLists(lists, order, threshold, LinkCount(lists));
  }

  /** Every cell of every pattern the scan emitted comes from a birth list. */
  lemma {:induction false} LadderCellsFromLists(lists: seq<seq<CellInfo>>, order: seq<string>, threshold: int, n: int)
    requires Filled(lists) && 0 <= n && (n == 0 || n < |lists|)
    ensures forall q :: q in LadderScan(lists, order, threshold, n).patterns + Flush(LadderScan(lists, order, threshold, n), threshold)
              ==> FromLists(q.cells, lists)
    decreases n
  {
    LadderScanShape(lists, order, threshold, n);
    DedupMeaning(LadderScan(lists, order, threshold, n).buffer);
    if n > 0 {
      LadderCellsFromLists(lists, order, threshold, n - 1);
      DedupMeaning(LadderScan(lists, order, threshold, n - 1).buffer);
    }
  }

  /** With fewer than two birth lists the scan never runs: nothing when the threshold exceeds 1, else one empty pattern. */
  lemma LadderShortInput(lists: seq<seq<CellInfo>>, order: seq<string>, threshold: int)
    requires Filled(lists) && |lists| < 2
    ensures threshold > 1 ==> LadderPatterns(lists, order, threshold) == []
    ensures threshold <= 1 ==> LadderPatterns(lists, order, threshold) == [PatternData(LADDER, [])]
  {
  }

  /** With a threshold of at most 1, a break right at the first link emits an empty LADDER pattern. */
  lemma LadderEmptyPatternOnBreak(lists: seq<seq<CellInfo>>, order: seq<string>, threshold: int)
    requires Filled(lists) && |lists| >= 2 && threshold <= 1 && !Links(lists, order, 0)
    ensures LadderScan(lists, order, threshold, 1).patterns == [PatternData(LADDER, [])]
  {
  }

  /** The loop of FindPattern over the links: the patterns, buffer and run length after every link. */
  method ScanLadder(lists: seq<seq<CellInfo>>, order: seq<string>, threshold: int)
    returns (patternList: seq<PatternData>, cellsLadderPattern: seq<CellInfo>, totalCellsInRow: int)
    requires Filled(lists)
    ensures LadderScan(lists, order, threshold, LinkCount(lists)) == LadderState(patternList, cellsLadderPattern, totalCellsInRow)
  {
    patternList := [];
    cellsLadderPattern := [];
    totalCellsInRow := 1;
    var j := 0;
    while j < |lists| - 1
      invariant 0 <= j <= LinkCount(lists)
      invariant LadderScan(lists, order, threshold, j) == LadderState(patternList, cellsLadderPattern, totalCellsInRow)
    {
      var current, next := lists[j], lists[j + 1];
      assert |current| >= 1 && |next| >= 1;
      var currentLastCell := current[|current| - 1];
      var nextFirstCell := next[0];
      var difPhases := nextFirstCell.phaseId - currentLastCell.phaseId;
      var difEntities := IndexOf(order, nextFirstCell.entityName) - IndexOf(order, currentLastCell.entityName);
      LadderScanStep(lists, order, threshold, j, patternList, cellsLadderPattern, totalCellsInRow,
                     difPhases <= 3 && difEntities <= 3);
      if difPhases <= 3 && difEntities <= 3 {
        cellsLadderPattern := cellsLadderPattern + current + next;
        totalCellsInRow := totalCellsInRow + 1;
      } else {
        var distinct := Dedup(cellsLadderPattern);
        if totalCellsInRow >= threshold {
          patternList := patternList + [PatternData(LADDER, distinct)];
        }
        totalCellsInRow := 1;
        cellsLadderPattern := [];
      }
      j := j + 1;
    }
  }

  /** LadderAlgo.FindPattern: the scan over the links, then the final flush of the last run. */
  method FindLadderPatterns(lists: seq<seq<CellInfo>>, order: seq<string>, threshold: int) returns (patternList: seq<PatternData>)
    requires Filled(lists)
    ensures patternList == LadderPatterns(lists, order, threshold)
  {
    var cellsLadderPattern, totalCellsInRow;
    patternList, cellsLadderPattern, totalCellsInRow := ScanLadder(lists, order, threshold);
    var distinct := Dedup(cellsLadderPattern);
    if totalCellsInRow >= threshold {
      patternList := patternList + [PatternData(LADDER, distinct)];
    }
  }

  // ----- PatternComputationHandler -----

  /** The cells born in phase p, in row order: preProcessing's list for that phase. */
  function Births(rows: seq<RowView>, p: PhaseBounds): seq<CellInfo>
    requires Named(rows)
  {
    Bucket(rows, p, MULTIPLE_BIRTHS)
  }

  /** One birth list per phase with births, in phase order. */
  function BirthLists(rows: seq<RowView>, phases: seq<PhaseBounds>): seq<seq<CellInfo>>
    requires Named(rows)
  {
    if phases == [] then []
    else
      var b := Births(rows, phases[|phases| - 1]);
      BirthLists(rows, phases[..|phases| - 1]) + (if b != [] then [b] else [])
  }

  /** The first member names of the rows, in row order. */
  function FirstNames(rows: seq<RowView>): (r: seq<string>)
    requires Named(rows)
    ensures |r| == |rows| && forall i :: 0 <= i < |rows| ==> r[i] == rows[i].names[0]
  {
    if rows == [] then [] else FirstNames(rows[..|rows| - 1]) + [rows[|rows| - 1].names[0]]
  }

  /** The names preProcessing records: the rows' first names once for every phase whose id is 0. */
  function ZeroPhaseNames(rows: seq<RowView>, phases: seq<PhaseBounds>): seq<string>
    requires Named(rows)
  {
    if phases == [] then []
    else ZeroPhaseNames(rows, phases[..|phases| - 1]) + (if phases[|phases| - 1].phaseId == 0 then FirstNames(rows) else [])
  }

  /** The birth lists and names of the first j + 1 phases: those of the first j, then phase j's. */
  lemma PreProcessingStep(rows: seq<RowView>, phases: seq<PhaseBounds>, j: int)
    requires Named(rows) && 0 <= j < |phases|
    ensures BirthLists(rows, phases[..j + 1]) == BirthLists(rows, phases[..j]) + (if Births(rows, phases[j]) != [] then [Births(rows, phases[j])] else [])
    ensures ZeroPhaseNames(rows, phases[..j + 1]) == ZeroPhaseNames(rows, phases[..j]) + (if phases[j].phaseId == 0 then FirstNames(rows) else [])
  {
    var ps := phases[..j + 1];
    assert ps[..|ps| - 1] == phases[..j] && ps[|ps| - 1] == phases[j];
  }

  /** The fields after j rounds, extended by round j, are the fields after j + 1 rounds. */
  lemma PreProcessingAdvance(rows: seq<RowView>, phases: seq<PhaseBounds>, j: int,
                             births0: seq<seq<CellInfo>>, names0: seq<string>,
                             births: seq<seq<CellInfo>>, names: seq<string>)
    requires Named(rows) && 0 <= j < |phases|
    requires births == births0 + BirthLists(rows, phases[..j]) && names == names0 + ZeroPhaseNames(rows, phases[..j])
    ensures births + (if Births(rows, phases[j]) != [] then [Births(rows, phases[j])] else []) == births0 + BirthLists(rows, phases[..j + 1])
    ensures names + (if phases[j].phaseId == 0 then FirstNames(rows) else []) == names0 + ZeroPhaseNames(rows, phases[..j + 1])
  {
    PreProcessingStep(rows, phases, j);
    var b := Births(rows, phases[j]);
    AppendAssoc(births0, BirthLists(rows, phases[..j]), if b != [] then [b] else []);
    AppendAssoc(names0, ZeroPhaseNames(rows, phases[..j]), if phases[j].phaseId == 0 then FirstNames(rows) else []);
  }

  /** Phase ids strictly ascend along the phase list. */
  predicate Ascending(phases: seq<PhaseBounds>) {
    forall k :: 0 <= k < |phases| - 1 ==> phases[k].phaseId < phases[k + 1].phaseId
  }

  /** All cells of a list carry one phase id. */
  predicate OnePhase(cells: seq<CellInfo>) {
    forall i :: 0 <= i < |cells| ==> cells[i].phaseId == cells[0].phaseId
  }

  /** Every cell born in phase p carries p's id. */
  lemma BirthsInPhase(rows: seq<RowView>, p: PhaseBounds)
    requires Named(rows)
    ensures OnePhase(Births(rows, p))
    ensures Births(rows, p) != [] ==> Births(rows, p)[0].phaseId == p.phaseId
  {
    var b := Births(rows, p);
    BucketMembership(rows, p, MULTIPLE_BIRTHS);
    forall i | 0 <= i < |b| ensures b[i].phaseId == p.phaseId {
      assert b[i] in b;
    }
  }

  /** Every birth list is non-empty and lies in one phase. */
  lemma {:induction false} BirthListsFilled(rows: seq<RowView>, phases: seq<PhaseBounds>)
    requires Named(rows)
    ensures Filled(BirthLists(rows, phases))
    ensures forall j :: 0 <= j < |BirthLists(rows, phases)| ==> OnePhase(BirthLists(rows, phases)[j])
    decreases |phases|
  {
    if phases != [] {
      var n := |phases|;
      BirthListsFilled(rows, phases[..n - 1]);
      BirthsInPhase(rows, phases[n - 1]);
    }
  }

  lemma AscendingFront(phases: seq<PhaseBounds>)
    requires Ascending(phases) && |phases| >= 1
    ensures Ascending(phases[..|phases| - 1])
  {
    var front := phases[..|phases| - 1];
    forall k | 0 <= k < |front| - 1 ensures front[k].phaseId < front[k + 1].phaseId {
      assert front[k] == phases[k] && front[k + 1] == phases[k + 1];
    }
  }

  /** When the phase ids ascend, so do the birth lists' phase ids, none beyond the last phase's. */
  lemma {:induction false} BirthListsAscend(rows: seq<RowView>, phases: seq<PhaseBounds>)
    requires Named(rows) && Ascending(phases)
    ensures Filled(BirthLists(rows, phases))
    ensures forall j :: 0 <= j < |BirthLists(rows, phases)| - 1 ==>
              BirthLists(rows, phases)[j][0].phaseId < BirthLists(rows, phases)[j + 1][0].phaseId
    ensures BirthLists(rows, phases) != [] ==>
              BirthLists(rows, phases)[|BirthLists(rows, phases)| - 1][0].phaseId <= phases[|phases| - 1].phaseId
    decreases |phases|
  {
    BirthListsFilled(rows, phases);
    if phases != [] {
      var n := |phases|;
      var front := phases[..n - 1];
      var b := Births(rows, phases[n - 1]);
      AscendingFront(phases);
      BirthListsAscend(rows, front);
      BirthsInPhase(rows, phases[n - 1]);
      var bl := BirthLists(rows, front);
      assert BirthLists(rows, phases) == bl + (if b != [] then [b] else []);
      if bl != [] {
        assert front[n - 2] == phases[n - 2];
      }
    }
  }

  /** With ascending phase ids, every ladder link between prepared birth lists has a positive phase gap. */
  lemma LadderPhaseGapPositive(rows: seq<RowView>, phases: seq<PhaseBounds>, j: int)
    requires Named(rows) && Ascending(phases)
    requires 0 <= j < |BirthLists(rows, phases)| - 1
    ensures Filled(BirthLists(rows, phases)) && PhaseGap(BirthLists(rows, phases), j) > 0
  {
    BirthListsFilled(rows, phases);
    BirthListsAscend(rows, phases);
    var bl := BirthLists(rows, phases);
    assert OnePhase(bl[j]);
  }

  /** What computePatterns returns for a kind, given the BDU and ladder miners' results. */
  function Dispatch(kind: PatternType, bdu: PatternType -> seq<PatternData>, ladder: seq<PatternData>): seq<PatternData>
  {
    if kind == LADDER then ladder
    else if kind == MULTIPLE_BIRTHS || kind == MULTIPLE_UPDATES || kind == MULTIPLE_DEATHS then bdu(kind)
    else bdu(NO_TYPE) + ladder
  }

  class PatternComputationHandler {
    const threshold: int
    var listOfBirthsEachPhase: seq<seq<CellInfo>>
    var totalEntitiesNamesAscOrder: seq<string>

    /** A fresh handler: threshold 3, no birth lists, no names. */
    constructor ()
      ensures threshold == 3 && listOfBirthsEachPhase == [] && totalEntitiesNamesAscOrder == []
    {
      threshold := 3;
      listOfBirthsEachPhase := [];
      totalEntitiesNamesAscOrder := [];
    }

    /**
     * preProcessing: per phase, the born cells in row order (kept when there
     * are any), and the rows' first names recorded while in a phase with id 0.
     * The fields are never cleared: a second call appends.
     */
    method PreProcessing(rows: seq<RowView>, phases: seq<PhaseBounds>)
      requires Named(rows)
      modifies this
      ensures listOfBirthsEachPhase == old(listOfBirthsEachPhase) + BirthLists(rows, phases)
      ensures totalEntitiesNamesAscOrder == old(totalEntitiesNamesAscOrder) + ZeroPhaseNames(rows, phases)
    {
      ghost var births0, names0 := listOfBirthsEachPhase, totalEntitiesNamesAscOrder;
      var j := 0;
      while j < |phases|
        invariant 0 <= j <= |phases|
        invariant listOfBirthsEachPhase == births0 + BirthLists(rows, phases[..j])
        invariant totalEntitiesNamesAscOrder == names0 + ZeroPhaseNames(rows, phases[..j])
      {
        PreProcessingAdvance(rows, phases, j, births0, names0, listOfBirthsEachPhase, totalEntitiesNamesAscOrder);
        PhaseRound(rows, phases[j]);
        j := j + 1;
      }
      assert phases[..j] == phases;
    }

    /** One round of preProcessing: phase p's births, kept when there are any, and its names when its id is 0. */
    method PhaseRound(rows: seq<RowView>, p: PhaseBounds)
      requires Named(rows)
      modifies this
      ensures listOfBirthsEachPhase == old(listOfBirthsEachPhase) + (if Births(rows, p) != [] then [Births(rows, p)] else [])
      ensures totalEntitiesNamesAscOrder == old(totalEntitiesNamesAscOrder) + (if p.phaseId == 0 then FirstNames(rows) else [])
    {
      var births := ScanPhase(rows, p);
      if |births| > 0 {
        listOfBirthsEachPhase := listOfBirthsEachPhase + [births];
      }
    }

    /** The inner loop of preProcessing for one phase: its born cells, and the names when its id is 0. */
    method ScanPhase(rows: seq<RowView>, p: PhaseBounds) returns (births: seq<CellInfo>)
      requires Named(rows)
      modifies this
      ensures births == Births(rows, p)
      ensures listOfBirthsEachPhase == old(listOfBirthsEachPhase)
      ensures totalEntitiesNamesAscOrder == old(totalEntitiesNamesAscOrder) + (if p.phaseId == 0 then FirstNames(rows) else [])
    {
      births := [];
      for i := 0 to |rows|
        invariant births == Bucket(rows[..i], p, MULTIPLE_BIRTHS)
        invariant listOfBirthsEachPhase == old(listOfBirthsEachPhase)
        invariant totalEntitiesNamesAscOrder == old(totalEntitiesNamesAscOrder) + (if p.phaseId == 0 then FirstNames(rows[..i]) else [])
      {
        var t := GPMTypeOf(rows[i].life, p.first, p.last);
        var entityName := rows[i].names[0];
        assert rows[..i + 1][..i] == rows[..i] && rows[..i + 1][i] == rows[i];
        if p.phaseId == 0 {
          totalEntitiesNamesAscOrder := totalEntitiesNamesAscOrder + [entityName];
        }
        if t == BIRTH {
          births := births + [CellInfo(entityName, p.phaseId)];
        }
      }
      assert rows[..|rows|] == rows;
    }

    /**
     * computePatterns: preProcessing, then LADDER runs the ladder miner, a
     * MULTIPLE_* kind runs the BDU miner for it, and any other kind runs the
     * BDU miner over all three kinds followed by the ladder miner.
     */
    method ComputePatterns(rows: seq<RowView>, phases: seq<PhaseBounds>, kind: PatternType) returns (result: seq<PatternData>)
      requires Named(rows) && Filled(listOfBirthsEachPhase)
      modifies this
      ensures listOfBirthsEachPhase == old(listOfBirthsEachPhase) + BirthLists(rows, phases)
      ensures totalEntitiesNamesAscOrder == old(totalEntitiesNamesAscOrder) + ZeroPhaseNames(rows, phases)
      ensures Filled(listOfBirthsEachPhase)
      ensures result == Dispatch(kind, k => BduPatterns(rows, phases, threshold, k),
                                 LadderPatterns(listOfBirthsEachPhase, totalEntitiesNamesAscOrder, threshold))
    {
      ghost var before := listOfBirthsEachPhase;
      PreProcessing(rows, phases);
      BirthListsFilled(rows, phases);
      FilledAppend(before, BirthLists(rows, phases));
      if kind == LADDER {
        result := FindLadderPatterns(listOfBirthsEachPhase, totalEntitiesNamesAscOrder, threshold);
      } else if kind == MULTIPLE_BIRTHS {
        result := FindBduPatterns(rows, phases, threshold, MULTIPLE_BIRTHS);
      } else if kind == MULTIPLE_UPDATES {
        result := FindBduPatterns(rows, phases, threshold, MULTIPLE_UPDATES);
      } else if kind == MULTIPLE_DEATHS {
        result := FindBduPatterns(rows, phases, threshold, MULTIPLE_DEATHS);
      } else {
        var bdu := FindBduPatterns(rows, phases, threshold, NO_TYPE);
        var ladder := FindLadderPatterns(listOfBirthsEachPhase, totalEntitiesNamesAscOrder, threshold);
        result := bdu + ladder;
      }
    }
  }
}
