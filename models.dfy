/**
 * The value classes shared by every layer: beats (time points), entities
 * with their life details, the measurements attached to an (entity, beat)
 * pair, and the cells and patterns the miners report.
 */
module Models {
  import opened Wrappers
  import opened Kinds

  /** A time point; `date` is the formatted date when the raw label parsed as one. */
  datatype Beat = Beat(beatId: int, rawDate: string, date: Option<string>)

  /**
   * Birth and death beat ids, the alive flag and the duration. Nothing is
   * validated: a birth after the death, or a non-positive duration, is kept.
   */
  datatype LifeDetails = LifeDetails(birthBeatId: int, deathBeatId: int, isAlive: bool, duration: int)

  /** The three-argument constructor: the duration is derived from the two ids. */
  function LifeFromSpan(birth: int, death: int, alive: bool): (r: LifeDetails)
    ensures r.birthBeatId == birth && r.deathBeatId == death && r.isAlive == alive
    ensures r.duration == death - birth + 1
    ensures r.duration >= 1 <==> birth <= death
  {
    LifeDetails(birth, death, alive, death - birth + 1)
  }

  datatype Entity = Entity(entityId: int, entityName: string, lifeDetails: LifeDetails)

  /** A cell of the summarised grid named by a pattern: a group's first member and a phase id. */
  datatype CellInfo = CellInfo(entityName: string, phaseId: int)

  datatype PatternData = PatternData(patternType: PatternType, cells: seq<CellInfo>)

  /**
   * A measurement as a value. `Measured` is daintiness' Measurement, with its
   * two kinds, its value and its colour (None for Java's null); `Empty` is
   * EmptyIMeasurement, which has only a colour, fixed when it is built.
   */
  datatype IMeasurement =
    | Measured(measurementType: MeasurementType, aggregationType: AggregationType, value: real, color: Option<string>)
    | Empty(emptyColor: Option<string>)
  {
    /** The (measurement, aggregation) key; an empty measurement has none (both getters give null). */
    function Key(): Option<MeasurementKey> {
      if Measured? then Some(MeasurementKey(measurementType, aggregationType)) else None
    }

    function Value(): real {
      if Measured? then value else 0.0
    }

    function Color(): Option<string> {
      if Measured? then color else emptyColor
    }

    /** addToValue: the value grows by exactly `v`; an empty measurement ignores it. */
    function AddToValue(v: real): (r: IMeasurement)
      ensures r.Key() == Key() && r.Color() == Color()
      ensures Measured? ==> r.Value() == Value() + v
      ensures Empty? ==> r == this
    {
      if Measured? then this.(value := value + v) else this
    }

    /** setColor: the colour becomes `c` (None for null); an empty measurement ignores it. */
    function SetColor(c: Option<string>): (r: IMeasurement)
      ensures r.Key() == Key() && r.Value() == Value()
      ensures Measured? ==> r.Color() == c
      ensures Empty? ==> r == this
    {
      if Measured? then this.(color := c) else this
    }

    predicate HasKey(k: MeasurementKey) {
      Key() == Some(k)
    }
  }

  /** A fresh Measurement: value and kinds as given, no colour yet. */
  function NewMeasurement(v: real, mt: MeasurementType, at: AggregationType): (r: IMeasurement)
    ensures r.Key() == Some(MeasurementKey(mt, at)) && r.Value() == v && r.Color() == None
  {
    Measured(mt, at, v, None)
  }

  /**
   * The colour an EmptyIMeasurement is built with. The BIRTH case falls
   * through to DEATH, so both give black.
   */
  function EmptyColorOf(t: GPMType): string
  {
    match t
    case BIRTH => "#000000"
    case DEATH => "#000000"
    case ACTIVE => "#9fffe0"
    case INACTIVE => "#717D7E"
  }

  function NewEmptyMeasurement(t: GPMType): (r: IMeasurement)
    ensures r.Key() == None && r.Value() == 0.0
    ensures r.Color() == Some(EmptyColorOf(t))
  {
    Empty(Some(EmptyColorOf(t)))
  }

  lemma EmptyColours()
    ensures NewEmptyMeasurement(BIRTH).Color() == NewEmptyMeasurement(DEATH).Color() == Some("#000000")
    ensures NewEmptyMeasurement(ACTIVE).Color() == Some("#9fffe0")
    ensures NewEmptyMeasurement(INACTIVE).Color() == Some("#717D7E")
    ensures forall t, v, c :: NewEmptyMeasurement(t).AddToValue(v).SetColor(c) == NewEmptyMeasurement(t)
  {
  }

  /**
   * The mutable Measurement: the kinds are fixed at construction, only the
   * value and the colour change.
   */
  class Measurement {
    const measurementType: MeasurementType
    const aggregationType: AggregationType
    var value: real
    var color: Option<string>

    constructor (v: real, mt: MeasurementType, at: AggregationType)
      ensures View() == NewMeasurement(v, mt, at)
    {
      measurementType := mt;
      aggregationType := at;
      value := v;
      color := None;
    }

    function View(): IMeasurement
      reads this
    {
      Measured(measurementType, aggregationType, value, color)
    }

    method AddToValue(v: real)
      modifies this
      ensures value == old(value) + v && color == old(color)
      ensures View() == old(View()).AddToValue(v)
    {
      value := value + v;
    }

    method SetColor(c: Option<string>)
      modifies this
      ensures color == c && value == old(value)
      ensures View() == old(View()).SetColor(c)
    {
      color := c;
    }
  }

  /** The measurements recorded for one entity at one beat. */
  datatype TimeEntityMeasurements = TEM(entity: Entity, beat: Beat, measurements: seq<IMeasurement>)
  {
    /** The first index whose measurement has both kinds, or -1 (containsMeasurementType). */
    function IndexOfKey(k: MeasurementKey): (r: int)
      ensures -1 <= r < |measurements|
      ensures r >= 0 ==> measurements[r].HasKey(k) && forall i :: 0 <= i < r ==> !measurements[i].HasKey(k)
      ensures r == -1 <==> forall i :: 0 <= i < |measurements| ==> !measurements[i].HasKey(k)
    {
      FirstWithKey(measurements, k)
    }

    /** getMeasurementOfType: the value of that measurement, or 0 when there is none. */
    function ValueOfKey(k: MeasurementKey): (r: real)
      ensures (exists i :: 0 <= i < |measurements| && measurements[i].HasKey(k)) ==> r == measurements[IndexOfKey(k)].Value()
      ensures (forall i :: 0 <= i < |measurements| ==> !measurements[i].HasKey(k)) ==> r == 0.0
    {
      var i := IndexOfKey(k);
      if i == -1 then 0.0 else measurements[i].Value()
    }
  }

  function FirstWithKey(ms: seq<IMeasurement>, k: MeasurementKey): (r: int)
    ensures -1 <= r < |ms|
    ensures r >= 0 ==> ms[r].HasKey(k) && forall i :: 0 <= i < r ==> !ms[i].HasKey(k)
    ensures r == -1 <==> forall i :: 0 <= i < |ms| ==> !ms[i].HasKey(k)
  {
    if ms == [] then -1
    else if ms[0].HasKey(k) then 0
    else
      var r := FirstWithKey(ms[1..], k);
      if r == -1 then -1 else r + 1
  }

  /** containsMeasurementType as the source writes it: a linear scan returning at the first match. */
  method ContainsMeasurementType(tem: TimeEntityMeasurements, mt: MeasurementType, at: AggregationType) returns (r: int)
    ensures r == tem.IndexOfKey(MeasurementKey(mt, at))
  {
    var ms := tem.measurements;
    var i := 0;
    while i < |ms|
      invariant 0 <= i <= |ms|
      invariant forall j :: 0 <= j < i ==> !ms[j].HasKey(MeasurementKey(mt, at))
    {
      if ms[i].Key() == Some(MeasurementKey(mt, at)) {
        return i;
      }
      i := i + 1;
    }
    return -1;
  }

  /** Absence reads as 0: a TEM without the key and one holding 0 for it look the same. */
  lemma AbsentReadsAsZero(e: Entity, b: Beat, k: MeasurementKey)
    ensures TEM(e, b, []).ValueOfKey(k) == TEM(e, b, [Measured(k.measurementType, k.aggregationType, 0.0, None)]).ValueOfKey(k)
  {
    var m := Measured(k.measurementType, k.aggregationType, 0.0, None);
    assert TEM(e, b, [m]).measurements[0].HasKey(k);
  }
}
