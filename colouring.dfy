/**
 * The three-bucket colouring of ClusteringHandler: a cell value is placed in
 * one of three equal slices of its kind's [min, max] range (widened by one
 * when it is wider than one), and the slice picks a shade of green; a zero
 * value gets the pale shade. Java's double division and its (int) cast are
 * written out, including division by zero.
 */
module Colouring {
  import opened Wrappers
  import opened Models

  const INT_MAX: int := 0x7fff_ffff
  const INT_MIN: int := -0x8000_0000

  /** The outcome of a double division: a finite quotient, or what dividing by zero gives. */
  datatype Quotient = Finite(q: real) | PosInf | NegInf | NaN

  /** x / y on doubles: a finite quotient unless y is 0, then +Infinity, -Infinity or NaN by the sign of x. */
  function Divide(x: real, y: real): (r: Quotient)
    ensures y != 0.0 ==> r == Finite(x / y)
    ensures y == 0.0 ==> (r == NaN <==> x == 0.0)
  {
    if y != 0.0 then Finite(x / y)
    else if x > 0.0 then PosInf
    else if x < 0.0 then NegInf
    else NaN
  }

  /** Rounding toward zero. */
  function Truncate(q: real): (r: int)
    ensures q >= 0.0 ==> r as real <= q < r as real + 1.0
    ensures q < 0.0 ==> r as real - 1.0 < q <= r as real
  {
    if q >= 0.0 then q.Floor else -((-q).Floor)
  }

  /** The (int) cast: truncation, saturating at the int range; NaN becomes 0. */
  function ToInt(q: Quotient): (r: int)
    ensures INT_MIN <= r <= INT_MAX
    ensures q.Finite? && INT_MIN as real <= q.q <= INT_MAX as real ==> r == Truncate(q.q)
  {
    match q
    case NaN => 0
    case PosInf => INT_MAX
    case NegInf => INT_MIN
    case Finite(x) =>
      if x >= INT_MAX as real then INT_MAX
      else if x <= INT_MIN as real then INT_MIN
      else Truncate(x)
  }

  /** The range of a kind's values, plus one when it is wider than one. */
  function ValueRange(min: real, max: real): (r: real)
    ensures max - min > 1.0 ==> r == max - min + 1.0
    ensures max - min <= 1.0 ==> r == max - min
  {
    var range := max - min;
    if range > 1.0 then range + 1.0 else range
  }

  /** The width of one of the three colouring groups. */
  function GroupRange(min: real, max: real): real
  {
    ValueRange(min, max) / 3.0
  }

  /** The colouring group of a value: 10 for zero, otherwise the truncated quotient of its offset from the minimum by the group width. */
  function ColoringGroup(v: real, min: real, max: real): int
  {
    if v != 0.0 then ToInt(Divide(v - min, GroupRange(min, max))) else 10
  }

  /** The group-to-colour map; any other group has no entry (null). */
  function GroupColor(g: int): Option<string>
  {
    if g == 10 then Some("#9fffe0")
    else if g == 0 then Some("#69f0ae")
    else if g == 1 then Some("#2bbd7e")
    else if g == 2 then Some("#009933")
    else None
  }

  function ValueColor(v: real, min: real, max: real): Option<string>
  {
    GroupColor(ColoringGroup(v, min, max))
  }

  /** Which cells are coloured: the phase starts after the birth, and the group is alive or the phase ends before the death. */
  predicate ColourCondition(life: LifeDetails, firstBeatId: int, lastBeatId: int)
  {
    (firstBeatId > life.birthBeatId && life.isAlive)
    || (!life.isAlive && lastBeatId < life.deathBeatId && firstBeatId > life.birthBeatId)
  }

  lemma ColourConditionMeaning(life: LifeDetails, first: int, last: int)
    ensures ColourCondition(life, first, last) <==> first > life.birthBeatId && (life.isAlive || last < life.deathBeatId)
  {
  }

  /** A zero value gets the pale shade whatever the range. */
  lemma ZeroIsPale(min: real, max: real)
    ensures ColoringGroup(0.0, min, max) == 10
    ensures ValueColor(0.0, min, max) == Some("#9fffe0")
  {
  }

  /** With a range wider than one, every non-zero value within it falls in group 0, 1 or 2 and gets a green. */
  lemma WideRangeBuckets(v: real, min: real, max: real)
    requires max - min > 1.0 && min <= v <= max && v != 0.0
    ensures 0 <= ColoringGroup(v, min, max) <= 2
    ensures ValueColor(v, min, max).Some?
  {
    var g := GroupRange(min, max);
    assert g == (max - min + 1.0) / 3.0;
    var q := (v - min) / g;
    assert q * g == v - min;
    assert 0.0 <= q < 3.0;
    assert Divide(v - min, g) == Finite(q);
  }

  /**
   * With a range of at most one (but not zero), the maximum is exactly three
   * group widths above the minimum: it lands in group 3, which has no colour.
   */
  lemma NarrowRangeMaxUncoloured(min: real, max: real)
    requires 0.0 < max - min <= 1.0 && max != 0.0
    ensures ColoringGroup(max, min, max) == 3
    ensures ValueColor(max, min, max) == None
  {
    var g := GroupRange(min, max);
    assert g == (max - min) / 3.0;
    assert (max - min) / g == 3.0;
  }

  /** When every value of a kind is the same non-zero v, the offset is 0/0, NaN, cast to group 0. */
  lemma FlatRangeFirstGreen(v: real)
    requires v != 0.0
    ensures ColoringGroup(v, v, v) == 0
    ensures ValueColor(v, v, v) == Some("#69f0ae")
  {
  }

  lemma DivideMonotone(a: real, b: real, g: real)
    requires g > 0.0 && a <= b
    ensures a / g <= b / g
  {
    assert b / g - a / g == (b - a) / g;
    assert (b - a) / g * g == b - a;
  }

  /** Within a range wider than one, a larger non-zero value never gets a lower group. */
  lemma GroupsAreMonotone(v1: real, v2: real, min: real, max: real)
    requires max - min > 1.0 && min <= v1 <= v2 <= max && v1 != 0.0 && v2 != 0.0
    ensures ColoringGroup(v1, min, max) <= ColoringGroup(v2, min, max)
  {
    var g := GroupRange(min, max);
    assert g > 0.0;
    WideRangeBuckets(v1, min, max);
    WideRangeBuckets(v2, min, max);
    var q1, q2 := (v1 - min) / g, (v2 - min) / g;
    DivideMonotone(v1 - min, v2 - min, g);
    assert Divide(v1 - min, g) == Finite(q1) && Divide(v2 - min, g) == Finite(q2);
  }
}
