/**
 * The schema-evolution input. A transitions file lists atomic schema
 * changes (beat id, ..., table name, change kind); each supported change
 * bumps one counter of its (table, beat) pair. A heartbeat file gives the
 * timeline, a table statistics file the tables and their lives, and every
 * (table, beat) pair with counters becomes a TEM holding the seven
 * aggregations of its counters, raw and, when the table had an earlier beat,
 * as the difference from that beat.
 */
module SchemaEvo {
  import opened Wrappers
  import opened Kinds
  import opened Models
  import opened Text
  import opened Lists

  // ----- TableBeatMetrics -----

  /** The three counters of one table at one beat. */
  datatype Counts = Counts(insertions: nat, deletions: nat, updates: nat)

  const NoEvents: Counts := Counts(0, 0, 0)

  /** getNumberOfTableBeatEvents. */
  function Total(c: Counts): nat {
    c.insertions + c.deletions + c.updates
  }

  /** The counters after one change of kind `t`: its own counter grows by one, an unsupported kind counts nothing. */
  function Bumped(c: Counts, t: TransactionType): (r: Counts)
    ensures t == INSERTION ==> r == Counts(c.insertions + 1, c.deletions, c.updates)
    ensures t == DELETION ==> r == Counts(c.insertions, c.deletions + 1, c.updates)
    ensures t == UPDATE ==> r == Counts(c.insertions, c.deletions, c.updates + 1)
    ensures t == NOT_SUPPORTED ==> r == c
  {
    match t
    case INSERTION => c.(insertions := c.insertions + 1)
    case DELETION => c.(deletions := c.deletions + 1)
    case UPDATE => c.(updates := c.updates + 1)
    case NOT_SUPPORTED => c
  }

  /** A supported change adds exactly one event to the pair; an unsupported one adds none. */
  lemma BumpedTotal(c: Counts, t: TransactionType)
    ensures Total(Bumped(c, t)) == Total(c) + (if t == NOT_SUPPORTED then 0 else 1)
  {
  }

  /** Whether an aggregation adds each counter: every kind but the three that leave it out. */
  predicate AddsInsertions(at: AggregationType) {
    at != SUM_OF_DELETIONS && at != SUM_OF_UPDATES && at != SUM_OF_DELETIONS_AND_UPDATES
  }

  predicate AddsDeletions(at: AggregationType) {
    at != SUM_OF_INSERTIONS && at != SUM_OF_UPDATES && at != SUM_OF_INSERTIONS_AND_UPDATES
  }

  predicate AddsUpdates(at: AggregationType) {
    at != SUM_OF_INSERTIONS && at != SUM_OF_DELETIONS && at != SUM_OF_INSERTIONS_AND_DELETIONS
  }

  /**
   * getValueByAggregationType: a single kind gives its counter, a two-kind
   * aggregation the sum of its two counters, SUM_OF_ALL and NO_AGGREGATION
   * all three; the value never exceeds the number of events.
   */
  function ValueByAggregation(c: Counts, at: AggregationType): real
  {
    (if AddsInsertions(at) then c.insertions as real else 0.0)
    + (if AddsDeletions(at) then c.deletions as real else 0.0)
    + (if AddsUpdates(at) then c.updates as real else 0.0)
  }

  /** The value of each aggregation, kind by kind. */
  lemma ValueByKind(c: Counts, at: AggregationType)
    ensures at == SUM_OF_INSERTIONS ==> ValueByAggregation(c, at) == c.insertions as real
    ensures at == SUM_OF_DELETIONS ==> ValueByAggregation(c, at) == c.deletions as real
    ensures at == SUM_OF_UPDATES ==> ValueByAggregation(c, at) == c.updates as real
    ensures at == SUM_OF_INSERTIONS_AND_DELETIONS ==> ValueByAggregation(c, at) == (c.insertions + c.deletions) as real
    ensures at == SUM_OF_INSERTIONS_AND_UPDATES ==> ValueByAggregation(c, at) == (c.insertions + c.updates) as real
    ensures at == SUM_OF_DELETIONS_AND_UPDATES ==> ValueByAggregation(c, at) == (c.deletions + c.updates) as real
    ensures at == SUM_OF_ALL || at == NO_AGGREGATION ==> ValueByAggregation(c, at) == Total(c) as real
  {
  }

  /** No aggregation exceeds the number of events of the pair, and none is negative. */
  lemma ValueBounded(c: Counts, at: AggregationType)
    ensures 0.0 <= ValueByAggregation(c, at) <= Total(c) as real
  {
  }

  /** The mutable counters of one table at one beat. */
  class TableBeatMetrics {
    var numberOfInsertions: nat
    var numberOfDeletions: nat
    var numberOfUpdates: nat

    constructor ()
      ensures View() == NoEvents
    {
      numberOfInsertions := 0;
      numberOfDeletions := 0;
      numberOfUpdates := 0;
    }

    function View(): Counts
      reads this
    {
      Counts(numberOfInsertions, numberOfDeletions, numberOfUpdates)
    }

    function GetNumberOfTableBeatEvents(): nat
      reads this
    {
      Total(View())
    }

    method AddInsertion()
      modifies this
      ensures View() == Bumped(old(View()), INSERTION)
    {
      numberOfInsertions := numberOfInsertions + 1;
    }

    method AddDeletion()
      modifies this
      ensures View() == Bumped(old(View()), DELETION)
    {
      numberOfDeletions := numberOfDeletions + 1;
    }

    method AddUpdate()
      modifies this
      ensures View() == Bumped(old(View()), UPDATE)
    {
      numberOfUpdates := numberOfUpdates + 1;
    }

    /** The conditional sum as the source writes it, one counter at a time. */
    method GetValueByAggregationType(at: AggregationType) returns (value: real)
      ensures value == ValueByAggregation(View(), at)
    {
      value := 0.0;
      if at != SUM_OF_DELETIONS && at != SUM_OF_UPDATES && at != SUM_OF_DELETIONS_AND_UPDATES {
        value := value + numberOfInsertions as real;
      }
      if at != SUM_OF_INSERTIONS && at != SUM_OF_UPDATES && at != SUM_OF_INSERTIONS_AND_UPDATES {
        value := value + numberOfDeletions as real;
      }
      if at != SUM_OF_INSERTIONS && at != SUM_OF_DELETIONS && at != SUM_OF_INSERTIONS_AND_DELETIONS {
        value := value + numberOfUpdates as real;
      }
    }
  }

  // ----- transaction kinds -----

  /** The four change names the loader counts. */
  const CountedChanges: seq<string> := ["Insertion:UpdateTable", "Deletion:UpdateTable", "Update:KeyChange", "Update:TypeChange"]

  /** None of the four change names the loader counts mentions a whole-table change. */
  lemma CountedChangesUnmarked()
    ensures forall k :: 0 <= k < |CountedChanges| ==> !Contains(CountedChanges[k], "NewTable") && !Contains(CountedChanges[k], "DeleteTable")
  {
    forall k | 0 <= k < |CountedChanges| ensures !Contains(CountedChanges[k], "NewTable") && !Contains(CountedChanges[k], "DeleteTable") {
      if k == 1 {
        DeletionUnmarked();
      } else {
        Lacks(CountedChanges[k], "NewTable");
        Lacks(CountedChanges[k], "DeleteTable");
      }
    }
  }

  /** "Deletion:UpdateTable" starts with the 'D' of "DeleteTable" but does not go on with it. */
  lemma DeletionUnmarked()
    ensures !Contains("Deletion:UpdateTable", "NewTable") && !Contains("Deletion:UpdateTable", "DeleteTable")
  {
    Lacks("Deletion:UpdateTable", "NewTable");
    OnlyAtStart('D', "eletion:UpdateTable", "DeleteTable");
    assert "Deletion:UpdateTable"[5] != "DeleteTable"[5];
  }

  /**
   * parseTransactionType: a creation or a removal of a whole table is not
   * counted; four exact change names map to the three counters; anything else
   * is not supported.
   */
  function ParseTransactionType(s: string): (r: TransactionType)
    ensures Contains(s, "NewTable") || Contains(s, "DeleteTable") ==> r == NOT_SUPPORTED
    ensures r == INSERTION <==> s == "Insertion:UpdateTable"
    ensures r == DELETION <==> s == "Deletion:UpdateTable"
    ensures r == UPDATE <==> s == "Update:KeyChange" || s == "Update:TypeChange"
  {
    CountedChangesUnmarked();
    assert CountedChanges[0] == "Insertion:UpdateTable" && CountedChanges[1] == "Deletion:UpdateTable";
    assert CountedChanges[2] == "Update:KeyChange" && CountedChanges[3] == "Update:TypeChange";
    if Contains(s, "NewTable") || Contains(s, "DeleteTable") then NOT_SUPPORTED
    else if s == "Insertion:UpdateTable" then INSERTION
    else if s == "Deletion:UpdateTable" then DELETION
    else if s == "Update:KeyChange" || s == "Update:TypeChange" then UPDATE
    else NOT_SUPPORTED
  }

  // ----- the heartbeat and table statistics files -----

  /**
   * parseTimeBeat: the beat id from field 0, the label from field 3 and the
   * date parsed from field 4 (None when it does not parse). A missing field
   * or a malformed id raises in the source: None here.
   */
  function ParseTimeBeat(fields: seq<string>, parseDate: string -> Option<string>): (r: Option<Beat>)
    ensures r.Some? <==> |fields| >= 5 && ParseInt(fields[0]).Some?
    ensures r.Some? ==> r.value == Beat(ParseInt(fields[0]).value, fields[3], parseDate(fields[4]))
  {
    if |fields| < 5 then None
    else match ParseInt(fields[0])
      case None => None
      case Some(id) => Some(Beat(id, fields[3], parseDate(fields[4])))
  }

  /** The string "-", spelled out character by character. */
  predicate IsDash(s: string) {
    |s| == 1 && s[0] == '-'
  }

  /**
   * parseTable: name, duration and birth from fields 0 to 2; a "-" in field 3
   * marks a live table whose death is field 4, otherwise field 3 is the
   * death. None where the source raises (a missing field, a malformed number).
   */
  function ParseTable(fields: seq<string>, entityId: int): Option<Entity>
  {
    if |fields| < 4 then None
    else
      var duration := ParseInt(fields[1]);
      var birth := ParseInt(fields[2]);
      var alive := IsDash(fields[3]);
      var death := if alive then (if |fields| < 5 then None else ParseInt(fields[4])) else ParseInt(fields[3]);
      if duration.None? || birth.None? || death.None? then None
      else Some(Entity(entityId, fields[0], LifeDetails(birth.value, death.value, alive, duration.value)))
  }
  /** What parseTable reads from each field, and exactly when it raises. */
  lemma ParseTableMeaning(fields: seq<string>, entityId: int)
    ensures var r := ParseTable(fields, entityId);
      r.Some? ==> |fields| >= 4 && r.value.entityId == entityId && r.value.entityName == fields[0]
    ensures var r := ParseTable(fields, entityId);
      r.Some? ==> ParseInt(fields[1]) == Some(r.value.lifeDetails.duration) && ParseInt(fields[2]) == Some(r.value.lifeDetails.birthBeatId)
    ensures var r := ParseTable(fields, entityId);
      r.Some? ==> (r.value.lifeDetails.isAlive <==> IsDash(fields[3]))
    ensures var r := ParseTable(fields, entityId);
      r.Some? && IsDash(fields[3]) ==> |fields| >= 5 && ParseInt(fields[4]) == Some(r.value.lifeDetails.deathBeatId)
    ensures var r := ParseTable(fields, entityId);
      r.Some? && !IsDash(fields[3]) ==> ParseInt(fields[3]) == Some(r.value.lifeDetails.deathBeatId)
    ensures ParseTable(fields, entityId).None? <==>
      |fields| < 4 || ParseInt(fields[1]).None? || ParseInt(fields[2]).None?
      || (IsDash(fields[3]) && (|fields| < 5 || ParseInt(fields[4]).None?))
      || (!IsDash(fields[3]) && ParseInt(fields[3]).None?)
  {
  }


  /**
   * The beats loadTimeLine appends: one per line, in line order, up to the
   * first line that raises.
   */
  function TimelineOf(lines: seq<seq<string>>, parseDate: string -> Option<string>): seq<Beat>
  {
    if lines == [] then []
    else match ParseTimeBeat(lines[0], parseDate)
      case None => []
      case Some(b) => [b] + TimelineOf(lines[1..], parseDate)
  }

  /** The timeline holds line i's beat at position i, and stops at the end or at the first line that does not parse. */
  lemma {:induction false} TimelineOfMeaning(lines: seq<seq<string>>, parseDate: string -> Option<string>)
    ensures var r := TimelineOf(lines, parseDate);
      |r| <= |lines|
      && (forall i :: 0 <= i < |r| ==> ParseTimeBeat(lines[i], parseDate) == Some(r[i]))
      && (|r| < |lines| ==> ParseTimeBeat(lines[|r|], parseDate).None?)
    decreases |lines|
  {
    if lines != [] && ParseTimeBeat(lines[0], parseDate).Some? {
      TimelineOfMeaning(lines[1..], parseDate);
      var r := TimelineOf(lines, parseDate);
      forall i | 0 <= i < |r| ensures ParseTimeBeat(lines[i], parseDate) == Some(r[i]) {
        if i > 0 {
          assert lines[i] == lines[1..][i - 1];
        }
      }
    }
  }

  /**
   * The entities loadEntities appends: the table on line i gets id
   * `first + i`, up to the first line that raises.
   */
  function EntitiesOf(lines: seq<seq<string>>, first: int): seq<Entity>
  {
    if lines == [] then []
    else match ParseTable(lines[0], first)
      case None => []
      case Some(e) => [e] + EntitiesOf(lines[1..], first + 1)
  }

  /** The table at position i is the one line i parses to, with id `first + i`. */
  lemma {:induction false} EntitiesOfAt(lines: seq<seq<string>>, first: int, i: int)
    requires 0 <= i < |EntitiesOf(lines, first)|
    ensures i < |lines| && ParseTable(lines[i], first + i) == Some(EntitiesOf(lines, first)[i])
    ensures EntitiesOf(lines, first)[i].entityId == first + i
    decreases |lines|
  {
    var e := ParseTable(lines[0], first);
    assert e.Some? && EntitiesOf(lines, first) == [e.value] + EntitiesOf(lines[1..], first + 1);
    if i > 0 {
      EntitiesOfAt(lines[1..], first + 1, i - 1);
      assert lines[1..][i - 1] == lines[i];
    }
  }

  /** The list is no longer than the file, and stops at the end or at a line that does not parse. */
  lemma {:induction false} EntitiesOfStop(lines: seq<seq<string>>, first: int)
    ensures |EntitiesOf(lines, first)| <= |lines|
    ensures |EntitiesOf(lines, first)| < |lines| ==> ParseTable(lines[|EntitiesOf(lines, first)|], first + |EntitiesOf(lines, first)|).None?
    decreases |lines|
  {
    if lines != [] && ParseTable(lines[0], first).Some? {
      var rest := EntitiesOf(lines[1..], first + 1);
      EntitiesOfStop(lines[1..], first + 1);
      assert |EntitiesOf(lines, first)| == 1 + |rest|;
      if |rest| < |lines| - 1 {
        assert lines[1..][|rest|] == lines[1 + |rest|];
      }
    }
  }

  /** The table on line i is at position i with id `first + i`; the list stops at the end or at the first line that does not parse. */
  lemma EntitiesOfMeaning(lines: seq<seq<string>>, first: int)
    ensures var r := EntitiesOf(lines, first);
      |r| <= |lines|
      && (forall i :: 0 <= i < |r| ==> ParseTable(lines[i], first + i) == Some(r[i]) && r[i].entityId == first + i)
      && (|r| < |lines| ==> ParseTable(lines[|r|], first + |r|).None?)
  {
    EntitiesOfStop(lines, first);
    var r := EntitiesOf(lines, first);
    forall i | 0 <= i < |r| ensures ParseTable(lines[i], first + i) == Some(r[i]) && r[i].entityId == first + i {
      EntitiesOfAt(lines, first, i);
    }
  }

  /** A run of beats, one per line up to a line that does not parse or the end, is the parsed timeline. */
  lemma {:induction false} TimelineUnique(lines: seq<seq<string>>, parseDate: string -> Option<string>, beats: seq<Beat>)
    requires |beats| <= |lines|
    requires forall j :: 0 <= j < |beats| ==> ParseTimeBeat(lines[j], parseDate) == Some(beats[j])
    requires |beats| < |lines| ==> ParseTimeBeat(lines[|beats|], parseDate).None?
    ensures TimelineOf(lines, parseDate) == beats
    decreases |lines|
  {
    if lines != [] && beats != [] {
      TimelineUnique(lines[1..], parseDate, beats[1..]);
    }
  }

  /** Likewise for tables: one per line, ids counting up from `first`. */
  lemma {:induction false} EntitiesUnique(lines: seq<seq<string>>, first: int, loaded: seq<Entity>)
    requires |loaded| <= |lines| && ParsedLines(lines, first, loaded)
    requires |loaded| < |lines| ==> ParseTable(lines[|loaded|], first + |loaded|).None?
    ensures EntitiesOf(lines, first) == loaded
    decreases |lines|
  {
    if lines != [] && loaded != [] {
      assert ParseTable(lines[0], first) == Some(loaded[0]);
      assert ParsedLines(lines[1..], first + 1, loaded[1..]) by {
        forall j | 0 <= j < |loaded| - 1 ensures ParseTable(lines[1..][j], first + 1 + j) == Some(loaded[1..][j]) {
          assert ParseTable(lines[j + 1], first + (j + 1)) == Some(loaded[j + 1]);
        }
      }
      EntitiesUnique(lines[1..], first + 1, loaded[1..]);
      assert loaded == [loaded[0]] + loaded[1..];
    }
  }

  /** Each of the tables read so far is what its own line parses to. */
  predicate ParsedLines(lines: seq<seq<string>>, first: int, loaded: seq<Entity>)
    requires |loaded| <= |lines|
  {
    forall j :: 0 <= j < |loaded| ==> ParseTable(lines[j], first + j) == Some(loaded[j])
  }

  lemma ParsedLinesAppend(lines: seq<seq<string>>, first: int, loaded: seq<Entity>, e: Entity)
    requires |loaded| < |lines| && ParsedLines(lines, first, loaded)
    requires ParseTable(lines[|loaded|], first + |loaded|) == Some(e)
    ensures ParsedLines(lines, first, loaded + [e])
  {
    forall j | 0 <= j < |loaded| + 1 ensures ParseTable(lines[j], first + j) == Some((loaded + [e])[j]) {
      if j < |loaded| {
        assert (loaded + [e])[j] == loaded[j];
      }
    }
  }

  /** A HashMap filled by put in list order. */
  function LastMap<K(==,!new)>(pairs: seq<(K, int)>): map<K, int>
  {
    if pairs == [] then map[]
    else LastMap(pairs[..|pairs| - 1])[pairs[|pairs| - 1].0 := pairs[|pairs| - 1].1]
  }

  /** Each key of the pairs is in the map, and maps to the value of its last pair. */
  lemma {:induction false} LastMapMeaning<K(!new)>(pairs: seq<(K, int)>)
    ensures forall k :: k in LastMap(pairs) <==> exists i :: 0 <= i < |pairs| && pairs[i].0 == k
    ensures forall i :: 0 <= i < |pairs| && IsLast(pairs, i) ==> LastMap(pairs)[pairs[i].0] == pairs[i].1
  {
    if pairs != [] {
      var n := |pairs| - 1;
      var front := pairs[..n];
      LastMapMeaning(front);
      forall k ensures k in LastMap(pairs) <==> exists i :: 0 <= i < |pairs| && pairs[i].0 == k {
        if k != pairs[n].0 {
          if k in LastMap(pairs) {
            var i :| 0 <= i < n && front[i].0 == k;
            assert pairs[i].0 == k;
          }
          if exists i :: 0 <= i < |pairs| && pairs[i].0 == k {
            var i :| 0 <= i < |pairs| && pairs[i].0 == k;
            assert front[i].0 == k;
          }
        }
      }
      forall i | 0 <= i < |pairs| && IsLast(pairs, i) ensures LastMap(pairs)[pairs[i].0] == pairs[i].1 {
        if i < n {
          assert pairs[i].0 != pairs[n].0;
          assert IsLast(front, i) by {
            forall j | i < j < n ensures front[j].0 != front[i].0 {
              assert front[j] == pairs[j];
            }
          }
        }
      }
    }
  }

  /** No later pair has the same key as pair i. */
  predicate IsLast<K(==,!new)>(pairs: seq<(K, int)>, i: int)
    requires 0 <= i < |pairs|
  {
    forall j :: i < j < |pairs| ==> pairs[j].0 != pairs[i].0
  }

  /** (label, beat id) of each beat: what loadTimeLine puts into versionToBeatIdMap. */
  function LabelPairs(timeline: seq<Beat>): (r: seq<(string, int)>)
    ensures |r| == |timeline|
  {
    seq(|timeline|, i requires 0 <= i < |timeline| => (timeline[i].rawDate, timeline[i].beatId))
  }

  /** (name, position) of each entity: what loadEntities puts into entityNameToIndex. */
  function NamePairs(entities: seq<Entity>): (r: seq<(string, int)>)
    ensures |r| == |entities|
  {
    seq(|entities|, i requires 0 <= i < |entities| => (entities[i].entityName, i))
  }

  lemma LabelPairsAppend(timeline: seq<Beat>, b: Beat)
    ensures LabelPairs(timeline + [b]) == LabelPairs(timeline) + [(b.rawDate, b.beatId)]
  {
  }

  lemma NamePairsAppend(entities: seq<Entity>, e: Entity)
    ensures NamePairs(entities + [e]) == NamePairs(entities) + [(e.entityName, |entities|)]
  {
  }

  lemma LastMapAppend<K(!new)>(pairs: seq<(K, int)>, p: (K, int))
    ensures LastMap(pairs + [p]) == LastMap(pairs)[p.0 := p.1]
  {
    assert (pairs + [p])[..|pairs|] == pairs;
  }

  // ----- the transitions file -----

  /** tableBeatMetricsMap: table name -> beat id -> counters. */
  type MetricsMap = map<string, map<int, Counts>>

  /** initTablesInMap: an empty beat map for every loaded table. */
  function EmptyMetrics(entities: seq<Entity>): (r: MetricsMap)
    ensures forall t :: t in r <==> exists i :: 0 <= i < |entities| && entities[i].entityName == t
    ensures forall t :: t in r ==> r[t] == map[]
  {
    if entities == [] then map[]
    else
      var n := |entities| - 1;
      assert forall i :: 0 <= i < n ==> entities[..n][i] == entities[i];
      EmptyMetrics(entities[..n])[entities[n].entityName := map[]]
  }

  /** The counters of a beat, zero when the beat has none yet. */
  function CountsAt(m: map<int, Counts>, beat: int): Counts {
    if beat in m then m[beat] else NoEvents
  }

  /**
   * mapToMetrics: the (table, beat) counters, created zeroed when missing,
   * bumped by one change of kind t; every other pair is left alone.
   */
  function Mapped(m: MetricsMap, table: string, beat: int, t: TransactionType): (r: MetricsMap)
    requires table in m
    ensures r.Keys == m.Keys
    ensures r[table].Keys == m[table].Keys + {beat}
    ensures r[table][beat] == Bumped(CountsAt(m[table], beat), t)
    ensures forall b :: b != beat ==> CountsAt(r[table], b) == CountsAt(m[table], b)
  {
    m[table := m[table][beat := Bumped(CountsAt(m[table], beat), t)]]
  }

  /** mapToMetrics leaves the beat map of every other table as it was. */
  lemma MappedElsewhere(m: MetricsMap, table: string, beat: int, t: TransactionType, other: string)
    requires table in m && other in m && other != table
    ensures Mapped(m, table, beat, t)[other] == m[other]
  {
  }

  /**
   * handleAtomicChange on a line of at least five fields: an unsupported
   * change leaves the map alone; a supported one bumps (field 3, field 0).
   * None where the source raises: a malformed beat id, or a table that was
   * not loaded (its beat map is null).
   */
  function AfterChange(m: MetricsMap, fields: seq<string>): (r: Option<MetricsMap>)
    requires |fields| >= 5
  {
    var t := ParseTransactionType(fields[4]);
    if t == NOT_SUPPORTED then Some(m)
    else match ParseInt(fields[0])
      case None => None
      case Some(beat) => if fields[3] in m then Some(Mapped(m, fields[3], beat, t)) else None
  }

  /** The map after loadMetrics, and whether every line was handled without raising. */
  datatype Loaded = Loaded(metrics: MetricsMap, complete: bool)

  /** loadMetrics after the initial map: short lines are skipped, the first raising line stops the load. */
  function LoadedMetrics(m: MetricsMap, lines: seq<seq<string>>): (r: Loaded)
    ensures r.metrics.Keys == m.Keys
  {
    if lines == [] then Loaded(m, true)
    else if |lines[0]| < 5 then LoadedMetrics(m, lines[1..])
    else match AfterChange(m, lines[0])
      case None => Loaded(m, false)
      case Some(m') => LoadedMetrics(m', lines[1..])
  }

  /** The line is a supported change of kind t to the given table at the given beat. */
  predicate Counted(line: seq<string>, table: string, beat: int, t: TransactionType) {
    |line| >= 5 && t != NOT_SUPPORTED && ParseTransactionType(line[4]) == t
    && line[3] == table && ParseInt(line[0]) == Some(beat)
  }

  /** How many lines are changes of kind t to (table, beat). */
  function Occurrences(lines: seq<seq<string>>, table: string, beat: int, t: TransactionType): nat {
    if lines == [] then 0
    else (if Counted(lines[0], table, beat, t) then 1 else 0) + Occurrences(lines[1..], table, beat, t)
  }

  /** The counters a (table, beat) pair should end with: its lines counted kind by kind. */
  function Tally(lines: seq<seq<string>>, table: string, beat: int): Counts {
    Counts(Occurrences(lines, table, beat, INSERTION), Occurrences(lines, table, beat, DELETION), Occurrences(lines, table, beat, UPDATE))
  }

  function Plus(a: Counts, b: Counts): Counts {
    Counts(a.insertions + b.insertions, a.deletions + b.deletions, a.updates + b.updates)
  }

  /** The line is handled without raising: short, unsupported, or naming a loaded table with a well-formed beat id. */
  predicate Handled(keys: set<string>, line: seq<string>) {
    |line| < 5 || ParseTransactionType(line[4]) == NOT_SUPPORTED
    || (ParseInt(line[0]).Some? && line[3] in keys)
  }

  /** The load completes exactly when every line is handled without raising. */
  lemma {:induction false} LoadCompletes(m: MetricsMap, lines: seq<seq<string>>)
    ensures LoadedMetrics(m, lines).complete <==> forall i :: 0 <= i < |lines| ==> Handled(m.Keys, lines[i])
    decreases |lines|
  {
    if lines != [] {
      if |lines[0]| < 5 || AfterChange(m, lines[0]).Some? {
        var m' := if |lines[0]| < 5 then m else AfterChange(m, lines[0]).value;
        LoadCompletes(m', lines[1..]);
        assert m'.Keys == m.Keys;
        assert forall i :: 1 <= i < |lines| ==> lines[1..][i - 1] == lines[i];
      }
    }
  }

  /** The counters one line adds to (table, beat): one in the counter of its kind, if it counts towards the pair. */
  function Single(line: seq<string>, table: string, beat: int): Counts {
    Counts(if Counted(line, table, beat, INSERTION) then 1 else 0,
           if Counted(line, table, beat, DELETION) then 1 else 0,
           if Counted(line, table, beat, UPDATE) then 1 else 0)
  }

  lemma TallyStep(lines: seq<seq<string>>, table: string, beat: int)
    requires lines != []
    ensures Tally(lines, table, beat) == Plus(Single(lines[0], table, beat), Tally(lines[1..], table, beat))
  {
  }

  /** One handled line adds its own contribution to the pair and creates the pair's entry iff it counts towards it. */
  /** One change of a supported kind t adds the counters with a one in t's place. */
  function OneOf(t: TransactionType): Counts {
    Counts(if t == INSERTION then 1 else 0, if t == DELETION then 1 else 0, if t == UPDATE then 1 else 0)
  }

  lemma PlusNothing(c: Counts)
    ensures Plus(c, NoEvents) == c
  {
  }

  lemma PlusAssociates(a: Counts, b: Counts, c: Counts)
    ensures Plus(Plus(a, b), c) == Plus(a, Plus(b, c))
  {
  }

  lemma PlusTotal(a: Counts, b: Counts)
    ensures Total(Plus(a, b)) == Total(a) + Total(b)
  {
  }

  lemma BumpedIsPlus(c: Counts, t: TransactionType)
    ensures Bumped(c, t) == Plus(c, OneOf(t))
  {
  }

  lemma ChangeCounts(m: MetricsMap, line: seq<string>, table: string, beat: int)
    requires table in m && |line| >= 5 && AfterChange(m, line).Some?
    ensures CountsAt(AfterChange(m, line).value[table], beat) == Plus(CountsAt(m[table], beat), Single(line, table, beat))
    ensures beat in AfterChange(m, line).value[table] <==> beat in m[table] || Total(Single(line, table, beat)) > 0
  {
    var t := ParseTransactionType(line[4]);
    if t == NOT_SUPPORTED {
      assert AfterChange(m, line) == Some(m);
      assert Single(line, table, beat) == NoEvents;
      PlusNothing(CountsAt(m[table], beat));
    } else {
      var b := ParseInt(line[0]).value;
      var m' := Mapped(m, line[3], b, t);
      assert AfterChange(m, line).value == m';
      if line[3] == table && b == beat {
        assert Counted(line, table, beat, t);
        assert forall u :: u != t ==> !Counted(line, table, beat, u);
        assert Single(line, table, beat) == OneOf(t);
        assert CountsAt(m'[table], beat) == Bumped(CountsAt(m[table], beat), t);
        BumpedIsPlus(CountsAt(m[table], beat), t);
        assert beat in m'[table];
      } else {
        assert Single(line, table, beat) == NoEvents;
        if line[3] != table {
          MappedElsewhere(m, line[3], b, t, table);
        } else {
          assert b != beat;
          assert CountsAt(m'[table], beat) == CountsAt(m[table], beat);
          assert m'[table].Keys == m[table].Keys + {b};
        }
        PlusNothing(CountsAt(m[table], beat));
        assert beat in m'[table] <==> beat in m[table];
      }
    }
  }

  /** The map after the first line of a load that goes on: the line's own contribution added. */
  lemma LoadStep(m: MetricsMap, lines: seq<seq<string>>, table: string, beat: int) returns (m': MetricsMap)
    requires table in m && lines != [] && LoadedMetrics(m, lines).complete
    ensures table in m' && LoadedMetrics(m, lines) == LoadedMetrics(m', lines[1..])
    ensures CountsAt(m'[table], beat) == Plus(CountsAt(m[table], beat), Single(lines[0], table, beat))
    ensures beat in m'[table] <==> beat in m[table] || Total(Single(lines[0], table, beat)) > 0
  {
    var line := lines[0];
    if |line| < 5 {
      m' := m;
      assert LoadedMetrics(m, lines) == LoadedMetrics(m, lines[1..]);
      assert Single(line, table, beat) == NoEvents;
      PlusNothing(CountsAt(m[table], beat));
    } else {
      var next := AfterChange(m, line);
      assert next.Some?;
      m' := next.value;
      assert LoadedMetrics(m, lines) == LoadedMetrics(m', lines[1..]);
      ChangeCounts(m, line, table, beat);
    }
  }

  /**
   * After a complete load, every (table, beat) pair of a loaded table holds
   * its initial counters plus one per matching line, and has an entry exactly
   * when it had one before or some line counts towards it.
   */
  lemma {:induction false} LoadedCounts(m: MetricsMap, lines: seq<seq<string>>, table: string, beat: int)
    requires table in m && LoadedMetrics(m, lines).complete
    ensures CountsAt(LoadedMetrics(m, lines).metrics[table], beat) == Plus(CountsAt(m[table], beat), Tally(lines, table, beat))
    ensures beat in LoadedMetrics(m, lines).metrics[table] <==> beat in m[table] || Total(Tally(lines, table, beat)) > 0
    decreases |lines|
  {
    if lines != [] {
      var m' := LoadStep(m, lines, table, beat);
      var rest := LoadedMetrics(m', lines[1..]).metrics;
      LoadedCounts(m', lines[1..], table, beat);
      var c, one, later := CountsAt(m[table], beat), Single(lines[0], table, beat), Tally(lines[1..], table, beat);
      TallyStep(lines, table, beat);
      PlusAssociates(c, one, later);
      PlusTotal(one, later);
      assert CountsAt(rest[table], beat) == Plus(Plus(c, one), later);
      assert beat in rest[table] <==> beat in m[table] || Total(one) > 0 || Total(later) > 0;
    } else {
      assert Tally(lines, table, beat) == NoEvents;
      PlusNothing(CountsAt(m[table], beat));
    }
  }

  /** Loading into the fresh map: a pair's counters are its matching lines, and it has an entry iff some line counts towards it. */
  lemma LoadedFromEmpty(entities: seq<Entity>, lines: seq<seq<string>>, table: string, beat: int)
    requires table in EmptyMetrics(entities) && LoadedMetrics(EmptyMetrics(entities), lines).complete
    ensures CountsAt(LoadedMetrics(EmptyMetrics(entities), lines).metrics[table], beat) == Tally(lines, table, beat)
    ensures beat in LoadedMetrics(EmptyMetrics(entities), lines).metrics[table] <==> Total(Tally(lines, table, beat)) > 0
  {
    LoadedCounts(EmptyMetrics(entities), lines, table, beat);
  }

  // ----- the TEMs -----

  /** The seven aggregations in the order createTEMCombinations walks them. */
  const AggregationKinds: seq<AggregationType> := [SUM_OF_ALL, SUM_OF_INSERTIONS, SUM_OF_DELETIONS, SUM_OF_UPDATES,
    SUM_OF_INSERTIONS_AND_DELETIONS, SUM_OF_INSERTIONS_AND_UPDATES, SUM_OF_DELETIONS_AND_UPDATES]

  /** One aggregation's raw measurement and, when the table had an earlier beat, its difference from that beat. */
  function KindMeasurements(current: Counts, previous: Option<Counts>, at: AggregationType): seq<IMeasurement> {
    [NewMeasurement(ValueByAggregation(current, at), RAW_VALUE, at)]
    + if previous.Some? then [NewMeasurement(ValueByAggregation(current, at) - ValueByAggregation(previous.value, at), DELTA_VALUE, at)] else []
  }

  /** The measurements of a list of aggregations, one or two per aggregation, in list order. */
  function CombinationsOver(current: Counts, previous: Option<Counts>, kinds: seq<AggregationType>): (r: seq<IMeasurement>)
    ensures |r| == if previous.Some? then 2 * |kinds| else |kinds|
  {
    if kinds == [] then []
    else
      var n := |kinds| - 1;
      CombinationsOver(current, previous, kinds[..n]) + KindMeasurements(current, previous, kinds[n])
  }

  /** Walking one more aggregation appends its measurements. */
  lemma CombinationsStep(current: Counts, previous: Option<Counts>, kinds: seq<AggregationType>, k: int)
    requires 0 <= k < |kinds|
    ensures CombinationsOver(current, previous, kinds[..k + 1])
         == CombinationsOver(current, previous, kinds[..k]) + KindMeasurements(current, previous, kinds[k])
  {
    assert kinds[..k + 1][..k] == kinds[..k];
  }

  /** createTEMCombinations for the given counters and those of the previous beat, if any. */
  function Combinations(current: Counts, previous: Option<Counts>): seq<IMeasurement> {
    CombinationsOver(current, previous, AggregationKinds)
  }

  /** The value TimeEntityMeasurements.getMeasurementOfType reads from a list of measurements. */
  function ValueIn(ms: seq<IMeasurement>, k: MeasurementKey): real {
    var i := FirstWithKey(ms, k);
    if i == -1 then 0.0 else ms[i].Value()
  }

  /** The measurement is one of those its own aggregation contributes. */
  predicate FromOwnKind(current: Counts, previous: Option<Counts>, m: IMeasurement) {
    m.Measured? && m in KindMeasurements(current, previous, m.aggregationType)
  }

  /** Every measurement of a list of aggregations is one of those its own aggregation contributes. */
  lemma {:induction false} MeasuredFrom(current: Counts, previous: Option<Counts>, kinds: seq<AggregationType>)
    ensures forall m :: m in CombinationsOver(current, previous, kinds) ==> FromOwnKind(current, previous, m)
    decreases |kinds|
  {
    if kinds != [] {
      var n := |kinds| - 1;
      var front := CombinationsOver(current, previous, kinds[..n]);
      var last := KindMeasurements(current, previous, kinds[n]);
      MeasuredFrom(current, previous, kinds[..n]);
      assert CombinationsOver(current, previous, kinds) == front + last;
      forall m | m in last ensures FromOwnKind(current, previous, m) {
        assert m.aggregationType == kinds[n];
      }
    }
  }

  /** Each listed aggregation contributes its raw measurement, and its delta when there is a previous beat. */
  lemma {:induction false} KindsPresent(current: Counts, previous: Option<Counts>, kinds: seq<AggregationType>, at: AggregationType)
    requires at in kinds
    ensures KindMeasurements(current, previous, at)[0] in CombinationsOver(current, previous, kinds)
    ensures previous.Some? ==> KindMeasurements(current, previous, at)[1] in CombinationsOver(current, previous, kinds)
    decreases |kinds|
  {
    var n := |kinds| - 1;
    var front := CombinationsOver(current, previous, kinds[..n]);
    var last := KindMeasurements(current, previous, kinds[n]);
    assert CombinationsOver(current, previous, kinds) == front + last;
    if at in kinds[..n] {
      KindsPresent(current, previous, kinds[..n], at);
    } else {
      assert at == kinds[n];
    }
  }

  /**
   * Reading back a TEM built by createTEMCombinations: the raw value of each
   * aggregation is present and is its counter sum.
   */
  lemma RawReadBack(current: Counts, previous: Option<Counts>, kinds: seq<AggregationType>, at: AggregationType)
    requires at in kinds
    ensures FirstWithKey(CombinationsOver(current, previous, kinds), MeasurementKey(RAW_VALUE, at)) != -1
    ensures ValueIn(CombinationsOver(current, previous, kinds), MeasurementKey(RAW_VALUE, at)) == ValueByAggregation(current, at)
  {
    var ms := CombinationsOver(current, previous, kinds);
    var raw := MeasurementKey(RAW_VALUE, at);
    var km := KindMeasurements(current, previous, at);
    KindsPresent(current, previous, kinds, at);
    MeasuredFrom(current, previous, kinds);
    assert km[0].HasKey(raw);
    var i := FirstWithKey(ms, raw);
    assert i != -1;
    assert FromOwnKind(current, previous, ms[i]);
    assert ms[i].aggregationType == at;
    assert ms[i] == km[0];
  }

  /**
   * The delta of each aggregation is present exactly when there is a previous
   * beat, and is then the difference from the previous beat's sum (an absent
   * delta reads as 0).
   */
  lemma DeltaReadBack(current: Counts, previous: Option<Counts>, kinds: seq<AggregationType>, at: AggregationType)
    requires at in kinds
    ensures FirstWithKey(CombinationsOver(current, previous, kinds), MeasurementKey(DELTA_VALUE, at)) != -1 <==> previous.Some?
    ensures ValueIn(CombinationsOver(current, previous, kinds), MeasurementKey(DELTA_VALUE, at))
         == if previous.Some? then ValueByAggregation(current, at) - ValueByAggregation(previous.value, at) else 0.0
  {
    var ms := CombinationsOver(current, previous, kinds);
    var delta := MeasurementKey(DELTA_VALUE, at);
    MeasuredFrom(current, previous, kinds);
    if previous.Some? {
      var km := KindMeasurements(current, previous, at);
      KindsPresent(current, previous, kinds, at);
      assert km[1].HasKey(delta);
      var i := FirstWithKey(ms, delta);
      assert i != -1;
      assert FromOwnKind(current, previous, ms[i]);
      assert ms[i].aggregationType == at;
      assert ms[i] == km[1];
    } else {
      forall i | 0 <= i < |ms| ensures !ms[i].HasKey(delta) {
        assert FromOwnKind(current, previous, ms[i]);
      }
    }
  }
  /** Every beat of the table indexes the timeline (timeline.get raises otherwise). */
  predicate OnTimeline(beats: map<int, Counts>, timeline: seq<Beat>) {
    forall b :: b in beats ==> 0 <= b < |timeline|
  }

  /**
   * The TEMs generateTimeEntityMeasurements makes for one table, its beats
   * taken in the order `keys`: one per beat, on the timeline entry the beat
   * id indexes, measured against the beat before it in that order.
   */
  function BeatTEMs(entity: Entity, beats: map<int, Counts>, keys: seq<int>, timeline: seq<Beat>): (r: seq<TimeEntityMeasurements>)
    requires OnTimeline(beats, timeline) && forall i :: 0 <= i < |keys| ==> keys[i] in beats
    ensures |r| == |keys|
  {
    if keys == [] then []
    else
      var n := |keys| - 1;
      var previous := if n == 0 then None else Some(beats[keys[n - 1]]);
      BeatTEMs(entity, beats, keys[..n], timeline) + [TEM(entity, timeline[keys[n]], Combinations(beats[keys[n]], previous))]
  }

  /** Taking one more beat appends its TEM, measured against the beat before it. */
  lemma BeatTEMsStep(entity: Entity, beats: map<int, Counts>, keys: seq<int>, timeline: seq<Beat>, k: int,
                     added: seq<TimeEntityMeasurements>, ms: seq<IMeasurement>)
    requires OnTimeline(beats, timeline) && forall i :: 0 <= i < |keys| ==> keys[i] in beats
    requires 0 <= k < |keys|
    requires added == BeatTEMs(entity, beats, keys[..k], timeline)
    requires ms == Combinations(beats[keys[k]], if k == 0 then None else Some(beats[keys[k - 1]]))
    ensures added + [TEM(entity, timeline[keys[k]], ms)] == BeatTEMs(entity, beats, keys[..k + 1], timeline)
  {
    assert keys[..k + 1][..k] == keys[..k];
  }

  /** The j-th TEM is on the j-th beat's timeline entry, measured against beat j - 1 when there is one. */
  lemma {:induction false} BeatTEMsAt(entity: Entity, beats: map<int, Counts>, keys: seq<int>, timeline: seq<Beat>, j: int)
    requires OnTimeline(beats, timeline) && forall i :: 0 <= i < |keys| ==> keys[i] in beats
    requires 0 <= j < |keys|
    ensures BeatTEMs(entity, beats, keys, timeline)[j]
         == TEM(entity, timeline[keys[j]], Combinations(beats[keys[j]], if j == 0 then None else Some(beats[keys[j - 1]])))
    decreases |keys|
  {
    var n := |keys| - 1;
    if j < n {
      BeatTEMsAt(entity, beats, keys[..n], timeline, j);
    }
  }

  /** The TEMs of one table, its beats in ascending order. */
  ghost function TableTEMs(entity: Entity, beats: map<int, Counts>, timeline: seq<Beat>): (r: seq<TimeEntityMeasurements>)
    requires OnTimeline(beats, timeline)
    ensures |r| == |beats|
  {
    SortedKeysIn(beats.Keys);
    SortedKeysLength(beats.Keys);
    BeatTEMs(entity, beats, SortedKeys(beats.Keys), timeline)
  }

  /** p is the table's greatest beat before b. */
  predicate IsPrevious(beats: map<int, Counts>, p: int, b: int) {
    p in beats && p < b && forall c :: c in beats && c < b ==> c <= p
  }

  /** The j-th TEM of a table is built from its j-th beat in ascending order and the beat before that. */
  lemma TableTEMsAt(entity: Entity, beats: map<int, Counts>, timeline: seq<Beat>, j: int)
    requires OnTimeline(beats, timeline) && 0 <= j < |beats|
    ensures |SortedKeys(beats.Keys)| == |beats|
    ensures SortedKeys(beats.Keys)[j] in beats
    ensures j > 0 ==> SortedKeys(beats.Keys)[j - 1] in beats && SortedKeys(beats.Keys)[j - 1] < SortedKeys(beats.Keys)[j]
    ensures TableTEMs(entity, beats, timeline)[j]
         == TEM(entity, timeline[SortedKeys(beats.Keys)[j]],
                Combinations(beats[SortedKeys(beats.Keys)[j]], if j == 0 then None else Some(beats[SortedKeys(beats.Keys)[j - 1]])))
  {
    var keys := SortedKeys(beats.Keys);
    SortedKeysLength(beats.Keys);
    SortedKeysMeaning(beats.Keys);
    SortedKeysIn(beats.Keys);
    BeatTEMsAt(entity, beats, keys, timeline, j);
  }

  /** In ascending order, the beat before the j-th is its greatest earlier beat, and only the first has none. */
  lemma SortedPrevious(beats: map<int, Counts>, j: int)
    requires 0 <= j < |beats|
    ensures |SortedKeys(beats.Keys)| == |beats|
    ensures (exists p :: p in beats && p < SortedKeys(beats.Keys)[j]) <==> j > 0
    ensures j > 0 ==> forall p :: IsPrevious(beats, p, SortedKeys(beats.Keys)[j]) <==> p == SortedKeys(beats.Keys)[j - 1]
  {
    var keys := SortedKeys(beats.Keys);
    SortedKeysLength(beats.Keys);
    SortedKeysMeaning(beats.Keys);
    var b := keys[j];
    forall c | c in beats && c < b ensures j > 0 && c <= keys[j - 1] {
      assert c in keys;
      var i :| 0 <= i < |keys| && keys[i] == c;
      SortedKeysIndexOrder(beats.Keys, i, j);
      if i < j - 1 {
        SortedKeysIndexOrder(beats.Keys, i, j - 1);
      }
    }
    if j > 0 {
      assert keys[j - 1] in beats && keys[j - 1] < b;
      assert IsPrevious(beats, keys[j - 1], b);
      forall p | IsPrevious(beats, p, b) ensures p == keys[j - 1] {
        assert keys[j - 1] <= p;
      }
    }
  }

  /**
   * A table's TEMs: one per beat of the table, in ascending beat order, each
   * for the table's entity on that beat's timeline entry.
   */
  lemma TableTEMsOrder(entity: Entity, beats: map<int, Counts>, timeline: seq<Beat>, j: int)
    requires OnTimeline(beats, timeline) && 0 <= j < |beats|
    ensures |SortedKeys(beats.Keys)| == |beats|
    ensures var b := SortedKeys(beats.Keys)[j]; var tem := TableTEMs(entity, beats, timeline)[j];
      b in beats && (j > 0 ==> SortedKeys(beats.Keys)[j - 1] < b) && tem.entity == entity && tem.beat == timeline[b]
  {
    TableTEMsAt(entity, beats, timeline, j);
  }

  /** The raw value of every aggregation in a table's TEM is the aggregated counters of its beat. */
  lemma TableTEMsRaw(entity: Entity, beats: map<int, Counts>, timeline: seq<Beat>, j: int, at: AggregationType)
    requires OnTimeline(beats, timeline) && 0 <= j < |beats| && at in AggregationKinds
    ensures |SortedKeys(beats.Keys)| == |beats| && SortedKeys(beats.Keys)[j] in beats
    ensures ValueIn(TableTEMs(entity, beats, timeline)[j].measurements, MeasurementKey(RAW_VALUE, at))
         == ValueByAggregation(beats[SortedKeys(beats.Keys)[j]], at)
  {
    TableTEMsAt(entity, beats, timeline, j);
    var keys := SortedKeys(beats.Keys);
    RawReadBack(beats[keys[j]], if j == 0 then None else Some(beats[keys[j - 1]]), AggregationKinds, at);
  }

  /**
   * The delta of every aggregation in a table's TEM is present exactly when
   * the table has an earlier beat, and is the difference from the greatest
   * earlier beat.
   */
  lemma TableTEMsDelta(entity: Entity, beats: map<int, Counts>, timeline: seq<Beat>, j: int, at: AggregationType)
    requires OnTimeline(beats, timeline) && 0 <= j < |beats| && at in AggregationKinds
    ensures |SortedKeys(beats.Keys)| == |beats| && SortedKeys(beats.Keys)[j] in beats
    ensures var b := SortedKeys(beats.Keys)[j]; var ms := TableTEMs(entity, beats, timeline)[j].measurements;
      (FirstWithKey(ms, MeasurementKey(DELTA_VALUE, at)) != -1 <==> exists p :: p in beats && p < b)
      && forall p :: IsPrevious(beats, p, b) ==>
           ValueIn(ms, MeasurementKey(DELTA_VALUE, at)) == ValueByAggregation(beats[b], at) - ValueByAggregation(beats[p], at)
  {
    TableTEMsAt(entity, beats, timeline, j);
    SortedPrevious(beats, j);
    var keys := SortedKeys(beats.Keys);
    DeltaReadBack(beats[keys[j]], if j == 0 then None else Some(beats[keys[j - 1]]), AggregationKinds, at);
  }

  /** The tables to generate for: each loaded, named by some entity, and with its beats on the timeline. */
  predicate TablesReady(m: MetricsMap, tables: seq<string>, entities: seq<Entity>, nameToIndex: map<string, int>, timeline: seq<Beat>) {
    forall t :: t in tables ==>
      t in m && t in nameToIndex && 0 <= nameToIndex[t] < |entities| && OnTimeline(m[t], timeline)
  }

  /** The iteration order of the metrics map's tables: each loaded table once. */
  predicate KeyOrder(m: MetricsMap, tables: seq<string>) {
    m.Keys == (set t | t in tables)
    && forall i, j :: 0 <= i < j < |tables| ==> tables[i] != tables[j]
  }

  /** generateTimeEntityMeasurements: the TEMs of each table in turn, the entity looked up by the table's name. */
  ghost function AllTEMs(m: MetricsMap, tables: seq<string>, entities: seq<Entity>, nameToIndex: map<string, int>, timeline: seq<Beat>): seq<TimeEntityMeasurements>
    requires TablesReady(m, tables, entities, nameToIndex, timeline)
  {
    if tables == [] then []
    else
      var n := |tables| - 1;
      var t := tables[n];
      AllTEMs(m, tables[..n], entities, nameToIndex, timeline) + TableTEMs(entities[nameToIndex[t]], m[t], timeline)
  }

  /** A TEM per (table, beat) pair: the TEMs number as many as the beats of all the tables. */
  lemma {:induction false} AllTEMsCount(m: MetricsMap, tables: seq<string>, entities: seq<Entity>, nameToIndex: map<string, int>, timeline: seq<Beat>)
    requires TablesReady(m, tables, entities, nameToIndex, timeline)
    ensures |AllTEMs(m, tables, entities, nameToIndex, timeline)| == PairCount(m, tables)
  {
    if tables != [] {
      var n := |tables| - 1;
      var t := tables[n];
      AllTEMsCount(m, tables[..n], entities, nameToIndex, timeline);
      SortedKeysLength(m[t].Keys);
    }
  }

  /** The number of (table, beat) pairs with counters among the given tables. */
  function PairCount(m: MetricsMap, tables: seq<string>): nat
    requires forall t :: t in tables ==> t in m
  {
    if tables == [] then 0 else PairCount(m, tables[..|tables| - 1]) + |m[tables[|tables| - 1]]|
  }

  /**
   * The loop of loadTimeLine: a beat per line, each label put with its beat
   * id, up to the first line that raises.
   */
  method ReadTimeline(rawLines: seq<seq<string>>, parseDate: string -> Option<string>) returns (beats: seq<Beat>, labels: map<string, int>)
    ensures beats == TimelineOf(rawLines, parseDate)
    ensures labels == LastMap(LabelPairs(beats))
  {
    beats := [];
    labels := map[];
    var i := 0;
    while i < |rawLines|
      invariant 0 <= i <= |rawLines| && |beats| == i
      invariant forall j :: 0 <= j < i ==> ParseTimeBeat(rawLines[j], parseDate) == Some(beats[j])
      invariant labels == LastMap(LabelPairs(beats))
    {
      var currentBeat := ParseTimeBeat(rawLines[i], parseDate);
      if currentBeat.None? {
        break;
      }
      LabelPairsAppend(beats, currentBeat.value);
      LastMapAppend(LabelPairs(beats), (currentBeat.value.rawDate, currentBeat.value.beatId));
      beats := beats + [currentBeat.value];
      labels := labels[currentBeat.value.rawDate := currentBeat.value.beatId];
      i := i + 1;
    }
    TimelineUnique(rawLines, parseDate, beats);
  }

  /**
   * The loop of loadEntities: the table on line i gets id i and each name is
   * put with its position, up to the first line that raises.
   */
  method ReadEntities(rawLines: seq<seq<string>>) returns (loaded: seq<Entity>, names: map<string, int>)
    ensures loaded == EntitiesOf(rawLines, 0)
    ensures names == LastMap(NamePairs(loaded))
  {
    loaded := [];
    names := map[];
    var i := 0;
    while i < |rawLines|
      invariant 0 <= i <= |rawLines| && |loaded| == i
      invariant ParsedLines(rawLines, 0, loaded)
      invariant names == LastMap(NamePairs(loaded))
    {
      var entity := ParseTable(rawLines[i], i);
      if entity.None? {
        break;
      }
      ParsedLinesAppend(rawLines, 0, loaded, entity.value);
      NamePairsAppend(loaded, entity.value);
      LastMapAppend(NamePairs(loaded), (entity.value.entityName, i));
      loaded := loaded + [entity.value];
      names := names[entity.value.entityName := i];
      i := i + 1;
    }
    EntitiesUnique(rawLines, 0, loaded);
  }

  /**
   * The loop of createTEMCombinations over one table's beat counters: for
   * each aggregation in turn, the raw value at the current beat and, unless
   * the previous beat id is the -1 sentinel, its difference from the value at
   * the previous beat.
   */
  method MeasureBeat(beats: map<int, Counts>, currentBeatId: int, previousBeatId: int) returns (measurementList: seq<IMeasurement>)
    requires currentBeatId in beats && (previousBeatId != -1 ==> previousBeatId in beats)
    ensures measurementList == Combinations(beats[currentBeatId], if previousBeatId == -1 then None else Some(beats[previousBeatId]))
  {
    ghost var previous := if previousBeatId == -1 then None else Some(beats[previousBeatId]);
    measurementList := [];
    for k := 0 to |AggregationKinds|
      invariant measurementList == CombinationsOver(beats[currentBeatId], previous, AggregationKinds[..k])
    {
      var at := AggregationKinds[k];
      ghost var before := measurementList;
      var currentValue := ValueByAggregation(beats[currentBeatId], at);
      measurementList := measurementList + [NewMeasurement(currentValue, RAW_VALUE, at)];
      if previousBeatId != -1 {
        var previousValue := ValueByAggregation(beats[previousBeatId], at);
        measurementList := measurementList + [NewMeasurement(currentValue - previousValue, DELTA_VALUE, at)];
      }
      assert measurementList == before + KindMeasurements(beats[currentBeatId], previous, at);
      CombinationsStep(beats[currentBeatId], previous, AggregationKinds, k);
    }
    assert AggregationKinds[..|AggregationKinds|] == AggregationKinds;
  }

  /**
   * The inner loop of generateTimeEntityMeasurements over one table: its
   * beats in ascending order, each measured against the one before it (the
   * first against the -1 sentinel).
   */
  method MeasureTable(entity: Entity, beats: map<int, Counts>, timeline: seq<Beat>) returns (added: seq<TimeEntityMeasurements>)
    requires OnTimeline(beats, timeline)
    ensures added == TableTEMs(entity, beats, timeline)
  {
    var keys := AscendingKeys(beats.Keys);
    SortedKeysIn(beats.Keys);
    assert forall i :: 0 <= i < |keys| ==> keys[i] in beats && keys[i] != -1;
    var previousBeatId := -1;
    added := [];
    for k := 0 to |keys|
      invariant previousBeatId == if k == 0 then -1 else keys[k - 1]
      invariant added == BeatTEMs(entity, beats, keys[..k], timeline)
    {
      var currentBeatId := keys[k];
      var measurements := MeasureBeat(beats, currentBeatId, previousBeatId);
      BeatTEMsStep(entity, beats, keys, timeline, k, added, measurements);
      added := added + [TEM(entity, timeline[currentBeatId], measurements)];
      previousBeatId := currentBeatId;
    }
    assert keys[..|keys|] == keys;
  }

  // ----- SchemaEvoLoader -----

  /** The loader's state: the parsed files, the lookup maps and the generated TEMs. */
  class SchemaEvoLoader {
    var timeline: seq<Beat>
    var entities: seq<Entity>
    var versionToBeatIdMap: map<string, int>
    var entityNameToIndex: map<string, int>
    var timeEntityMeasurements: seq<TimeEntityMeasurements>
    var tableBeatMetricsMap: MetricsMap

    constructor ()
      ensures timeline == [] && entities == [] && timeEntityMeasurements == []
      ensures versionToBeatIdMap == map[] && entityNameToIndex == map[] && tableBeatMetricsMap == map[]
    {
      timeline := [];
      entities := [];
      versionToBeatIdMap := map[];
      entityNameToIndex := map[];
      timeEntityMeasurements := [];
      tableBeatMetricsMap := map[];
    }

    /**
     * loadTimeLine over the heartbeat file's lines (header dropped): a beat
     * per line, and each label mapped to the id of its last beat. `ok` is
     * false where the source raises, and the state is then what it had built.
     */
    method LoadTimeLine(rawLines: seq<seq<string>>, parseDate: string -> Option<string>) returns (ok: bool)
      modifies this
      ensures timeline == TimelineOf(rawLines, parseDate)
      ensures versionToBeatIdMap == LastMap(LabelPairs(timeline))
      ensures ok <==> |timeline| == |rawLines|
      ensures entities == old(entities) && entityNameToIndex == old(entityNameToIndex)
      ensures tableBeatMetricsMap == old(tableBeatMetricsMap) && timeEntityMeasurements == old(timeEntityMeasurements)
    {
      timeline, versionToBeatIdMap := ReadTimeline(rawLines, parseDate);
      ok := |timeline| == |rawLines|;
    }

    /**
     * loadEntities over the table statistics file's lines (header dropped):
     * the table on line i gets id i, and each name is mapped to the position
     * of its last table. `ok` is false where the source raises.
     */
    method LoadEntities(rawLines: seq<seq<string>>) returns (ok: bool)
      modifies this
      ensures entities == EntitiesOf(rawLines, 0)
      ensures entityNameToIndex == LastMap(NamePairs(entities))
      ensures ok <==> |entities| == |rawLines|
      ensures timeline == old(timeline) && versionToBeatIdMap == old(versionToBeatIdMap)
      ensures tableBeatMetricsMap == old(tableBeatMetricsMap) && timeEntityMeasurements == old(timeEntityMeasurements)
    {
      entities, entityNameToIndex := ReadEntities(rawLines);
      ok := |entities| == |rawLines|;
    }

    /** initTablesInMap: an empty beat map for every loaded entity's name. */
    method InitTablesInMap()
      modifies this
      ensures tableBeatMetricsMap == EmptyMetrics(entities)
      ensures timeline == old(timeline) && entities == old(entities) && versionToBeatIdMap == old(versionToBeatIdMap)
      ensures entityNameToIndex == old(entityNameToIndex) && timeEntityMeasurements == old(timeEntityMeasurements)
    {
      var tables: MetricsMap := map[];
      for i := 0 to |entities|
        invariant tables == EmptyMetrics(entities[..i])
        modifies {}
      {
        assert entities[..i + 1][..i] == entities[..i];
        tables := tables[entities[i].entityName := map[]];
      }
      assert entities[..|entities|] == entities;
      tableBeatMetricsMap := tables;
    }

    /** mapToMetrics: bumps the (table, beat) counters, creating them when missing. */
    method MapToMetrics(tableName: string, beatId: int, transactionType: TransactionType)
      requires tableName in tableBeatMetricsMap
      modifies this
      ensures tableBeatMetricsMap == Mapped(old(tableBeatMetricsMap), tableName, beatId, transactionType)
      ensures timeline == old(timeline) && entities == old(entities) && versionToBeatIdMap == old(versionToBeatIdMap)
      ensures entityNameToIndex == old(entityNameToIndex) && timeEntityMeasurements == old(timeEntityMeasurements)
    {
      var beats := tableBeatMetricsMap[tableName];
      ghost var before := beats;
      if beatId !in beats {
        beats := beats[beatId := NoEvents];
      }
      beats := beats[beatId := Bumped(beats[beatId], transactionType)];
      assert beats == before[beatId := Bumped(CountsAt(before, beatId), transactionType)];
      tableBeatMetricsMap := tableBeatMetricsMap[tableName := beats];
    }

    /**
     * handleAtomicChange on a line of at least five fields. `ok` is false
     * where the source raises (a malformed beat id, a table that was not
     * loaded), and the map is then left alone.
     */
    method HandleAtomicChange(rawLine: seq<string>) returns (ok: bool)
      requires |rawLine| >= 5
      modifies this
      ensures AfterChange(old(tableBeatMetricsMap), rawLine) == if ok then Some(tableBeatMetricsMap) else None
      ensures !ok ==> tableBeatMetricsMap == old(tableBeatMetricsMap)
      ensures timeline == old(timeline) && entities == old(entities) && versionToBeatIdMap == old(versionToBeatIdMap)
      ensures entityNameToIndex == old(entityNameToIndex) && timeEntityMeasurements == old(timeEntityMeasurements)
    {
      var transactionType := ParseTransactionType(rawLine[4]);
      if transactionType != NOT_SUPPORTED {
        var beatId := ParseInt(rawLine[0]);
        if beatId.None? {
          return false;
        }
        var tableName := rawLine[3];
        if tableName !in tableBeatMetricsMap {
          return false;
        }
        MapToMetrics(tableName, beatId.value, transactionType);
      }
      return true;
    }

    /**
     * loadMetrics over the transitions file's lines (header dropped): the map
     * starts with every loaded table, lines of fewer than five fields are
     * skipped, and every other line is handled in turn. `ok` is false where
     * the source raises, and the map is then what the earlier lines built.
     */
    method LoadMetrics(rawLines: seq<seq<string>>) returns (ok: bool)
      modifies this
      ensures Loaded(tableBeatMetricsMap, ok) == LoadedMetrics(EmptyMetrics(entities), rawLines)
      ensures timeline == old(timeline) && entities == old(entities) && versionToBeatIdMap == old(versionToBeatIdMap)
      ensures entityNameToIndex == old(entityNameToIndex) && timeEntityMeasurements == old(timeEntityMeasurements)
    {
      InitTablesInMap();
      var i := 0;
      while i < |rawLines|
        invariant 0 <= i <= |rawLines|
        invariant LoadedMetrics(EmptyMetrics(entities), rawLines) == LoadedMetrics(tableBeatMetricsMap, rawLines[i..])
        invariant timeline == old(timeline) && entities == old(entities) && versionToBeatIdMap == old(versionToBeatIdMap)
        invariant entityNameToIndex == old(entityNameToIndex) && timeEntityMeasurements == old(timeEntityMeasurements)
      {
        var line := rawLines[i];
        assert rawLines[i..][0] == line && rawLines[i..][1..] == rawLines[i + 1..];
        if |line| >= 5 {
          var handled := HandleAtomicChange(line);
          if !handled {
            return false;
          }
        }
        i := i + 1;
      }
      assert rawLines[i..] == [];
      return true;
    }

    /**
     * createTEMCombinations: the measurements of the (table, current beat)
     * counters, against the previous beat's unless its id is the -1 sentinel.
     */
    method CreateTEMCombinations(entityId: string, currentBeatId: int, previousBeatId: int) returns (measurementList: seq<IMeasurement>)
      requires entityId in tableBeatMetricsMap && currentBeatId in tableBeatMetricsMap[entityId]
      requires previousBeatId != -1 ==> previousBeatId in tableBeatMetricsMap[entityId]
      ensures measurementList == Combinations(tableBeatMetricsMap[entityId][currentBeatId],
        if previousBeatId == -1 then None else Some(tableBeatMetricsMap[entityId][previousBeatId]))
    {
      measurementList := MeasureBeat(tableBeatMetricsMap[entityId], currentBeatId, previousBeatId);
    }

    /** The inner loop of generateTimeEntityMeasurements: one table's TEMs appended, its beats ascending. */
    method AppendTableTEMs(entityId: string)
      requires TablesReady(tableBeatMetricsMap, [entityId], entities, entityNameToIndex, timeline)
      modifies this
      ensures timeline == old(timeline) && entities == old(entities) && versionToBeatIdMap == old(versionToBeatIdMap)
      ensures entityNameToIndex == old(entityNameToIndex) && tableBeatMetricsMap == old(tableBeatMetricsMap)
      ensures timeEntityMeasurements
           == old(timeEntityMeasurements) + TableTEMs(entities[entityNameToIndex[entityId]], tableBeatMetricsMap[entityId], timeline)
    {
      assert entityId in [entityId];
      var added := MeasureTable(entities[entityNameToIndex[entityId]], tableBeatMetricsMap[entityId], timeline);
      timeEntityMeasurements := timeEntityMeasurements + added;
    }

    /**
     * generateTimeEntityMeasurements: the TEMs of each table, the tables in
     * the metrics map's iteration order `tableOrder`.
     */
    method GenerateTimeEntityMeasurements(tableOrder: seq<string>)
      requires KeyOrder(tableBeatMetricsMap, tableOrder)
      requires TablesReady(tableBeatMetricsMap, tableOrder, entities, entityNameToIndex, timeline)
      modifies this
      ensures timeline == old(timeline) && entities == old(entities) && versionToBeatIdMap == old(versionToBeatIdMap)
      ensures entityNameToIndex == old(entityNameToIndex) && tableBeatMetricsMap == old(tableBeatMetricsMap)
      ensures timeEntityMeasurements == AllTEMs(tableBeatMetricsMap, tableOrder, entities, entityNameToIndex, timeline)
    {
      timeEntityMeasurements := [];
      for k := 0 to |tableOrder|
        invariant timeline == old(timeline) && entities == old(entities) && versionToBeatIdMap == old(versionToBeatIdMap)
        invariant entityNameToIndex == old(entityNameToIndex) && tableBeatMetricsMap == old(tableBeatMetricsMap)
        invariant timeEntityMeasurements == AllTEMs(tableBeatMetricsMap, tableOrder[..k], entities, entityNameToIndex, timeline)
      {
        assert tableOrder[..k + 1][..k] == tableOrder[..k];
        AppendTableTEMs(tableOrder[k]);
      }
      assert tableOrder[..|tableOrder|] == tableOrder;
    }
  }
}
