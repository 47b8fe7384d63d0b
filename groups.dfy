/**
 * An entity group: the entities clustered together, their names, and the
 * life details folded over all of them; plus the lifecycle classification
 * of a group within a phase.
 */
module Groups {
  import opened Models
  import opened Kinds

  function Names(members: seq<Entity>): (r: seq<string>)
    ensures |r| == |members| && forall k :: 0 <= k < |members| ==> r[k] == members[k].entityName
  {
    if members == [] then [] else Names(members[..|members| - 1]) + [members[|members| - 1].entityName]
  }

  function Min(a: int, b: int): int { if a <= b then a else b }
  function Max(a: int, b: int): int { if a >= b then a else b }

  /** updateGroupLifeDetails: the earlier birth, the later death, alive if either is. */
  function AbsorbLife(cur: LifeDetails, added: LifeDetails): (r: LifeDetails)
    ensures r.birthBeatId == Min(cur.birthBeatId, added.birthBeatId)
    ensures r.deathBeatId == Max(cur.deathBeatId, added.deathBeatId)
    ensures r.isAlive == (cur.isAlive || added.isAlive)
    ensures r.duration == r.deathBeatId - r.birthBeatId + 1
  {
    var birth := if cur.birthBeatId > added.birthBeatId then added.birthBeatId else cur.birthBeatId;
    var death := if cur.deathBeatId < added.deathBeatId then added.deathBeatId else cur.deathBeatId;
    var alive := if added.isAlive then true else cur.isAlive;
    LifeDetails(birth, death, alive, death - birth + 1)
  }

  /**
   * The life details of a group whose members were added in this order: the
   * first member's verbatim, each later one absorbed in turn.
   */
  function GroupLife(members: seq<Entity>): LifeDetails
    requires |members| >= 1
  {
    if |members| == 1 then members[0].lifeDetails
    else AbsorbLife(GroupLife(members[..|members| - 1]), members[|members| - 1].lifeDetails)
  }

  /**
   * Over more than one member the group's birth is the least birth, its
   * death the greatest death, and it is alive iff some member is.
   */
  lemma {:induction false} GroupLifeSummary(members: seq<Entity>)
    requires |members| >= 1
    ensures forall k :: 0 <= k < |members| ==> GroupLife(members).birthBeatId <= members[k].lifeDetails.birthBeatId
    ensures exists k :: 0 <= k < |members| && GroupLife(members).birthBeatId == members[k].lifeDetails.birthBeatId
    ensures forall k :: 0 <= k < |members| ==> GroupLife(members).deathBeatId >= members[k].lifeDetails.deathBeatId
    ensures exists k :: 0 <= k < |members| && GroupLife(members).deathBeatId == members[k].lifeDetails.deathBeatId
    ensures GroupLife(members).isAlive <==> exists k :: 0 <= k < |members| && members[k].lifeDetails.isAlive
  {
    if |members| > 1 {
      var init := members[..|members| - 1];
      var last := |members| - 1;
      GroupLifeSummary(init);
      assert forall k :: 0 <= k < last ==> init[k] == members[k];
      var gl := GroupLife(members);
      if gl.birthBeatId == members[last].lifeDetails.birthBeatId {
      } else {
        var k :| 0 <= k < |init| && GroupLife(init).birthBeatId == init[k].lifeDetails.birthBeatId;
        assert gl.birthBeatId == members[k].lifeDetails.birthBeatId;
      }
      if gl.deathBeatId == members[last].lifeDetails.deathBeatId {
      } else {
        var k :| 0 <= k < |init| && GroupLife(init).deathBeatId == init[k].lifeDetails.deathBeatId;
        assert gl.deathBeatId == members[k].lifeDetails.deathBeatId;
      }
      if gl.isAlive && !members[last].lifeDetails.isAlive {
        var k :| 0 <= k < |init| && init[k].lifeDetails.isAlive;
        assert members[k].lifeDetails.isAlive;
      }
    } else {
      assert GroupLife(members).birthBeatId == members[0].lifeDetails.birthBeatId;
      assert GroupLife(members).deathBeatId == members[0].lifeDetails.deathBeatId;
    }
  }

  /** Absorbing members one by one is absorbing the whole list: a merge continues the fold. */
  function AbsorbAll(cur: LifeDetails, added: seq<Entity>): LifeDetails
  {
    if added == [] then cur else AbsorbLife(AbsorbAll(cur, added[..|added| - 1]), added[|added| - 1].lifeDetails)
  }

  lemma {:induction false} GroupLifeAppend(a: seq<Entity>, b: seq<Entity>)
    requires |a| >= 1
    ensures GroupLife(a + b) == AbsorbAll(GroupLife(a), b)
    decreases |b|
  {
    if b != [] {
      assert (a + b)[..|a + b| - 1] == a + b[..|b| - 1];
      GroupLifeAppend(a, b[..|b| - 1]);
    } else {
      assert a + b == a;
    }
  }

  class EntityGroup {
    var entityGroupId: int
    var members: seq<Entity>
    var names: seq<string>
    var lifeDetails: LifeDetails

    /** The names mirror the members, and the life details are the fold over them. */
    ghost predicate Valid()
      reads this
    {
      |members| >= 1 && names == Names(members) && lifeDetails == GroupLife(members)
    }

    /** A singleton group carries its entity's life details verbatim. */
    constructor (id: int, first: Entity)
      ensures Valid()
      ensures entityGroupId == id && members == [first] && names == [first.entityName]
      ensures lifeDetails == first.lifeDetails
    {
      entityGroupId := id;
      members := [first];
      names := [first.entityName];
      lifeDetails := first.lifeDetails;
    }

    method SetEntityGroupId(id: int)
      modifies this
      ensures entityGroupId == id && members == old(members) && names == old(names) && lifeDetails == old(lifeDetails)
    {
      entityGroupId := id;
    }

    method AddEntityInGroup(e: Entity)
      requires Valid()
      modifies this
      ensures Valid()
      ensures members == old(members) + [e] && entityGroupId == old(entityGroupId)
      ensures lifeDetails == AbsorbLife(old(lifeDetails), e.lifeDetails)
    {
      members := members + [e];
      names := names + [e.entityName];
      UpdateGroupLifeDetails(e.lifeDetails);
      assert members[..|members| - 1] == old(members);
    }

    method UpdateGroupLifeDetails(added: LifeDetails)
      modifies this
      ensures lifeDetails == AbsorbLife(old(lifeDetails), added)
      ensures members == old(members) && names == old(names) && entityGroupId == old(entityGroupId)
    {
      var birth := lifeDetails.birthBeatId;
      var death := lifeDetails.deathBeatId;
      var alive := lifeDetails.isAlive;
      if birth > added.birthBeatId {
        birth := added.birthBeatId;
      }
      if death < added.deathBeatId {
        death := added.deathBeatId;
      }
      if added.isAlive {
        alive := true;
      }
      lifeDetails := LifeDetails(birth, death, alive, death - birth + 1);
    }

    /** mergeWithEntityGroup: the other group's members are appended in order, each one absorbed. */
    method MergeWithEntityGroup(other: EntityGroup)
      requires Valid() && other.Valid() && other != this
      modifies this
      ensures Valid()
      ensures members == old(members) + other.members && entityGroupId == old(entityGroupId)
      ensures lifeDetails == AbsorbAll(old(lifeDetails), other.members)
    {
      var i := 0;
      while i < |other.members|
        invariant 0 <= i <= |other.members|
        invariant Valid() && entityGroupId == old(entityGroupId)
        invariant members == old(members) + other.members[..i]
        invariant lifeDetails == AbsorbAll(old(lifeDetails), other.members[..i])
      {
        AddEntityInGroup(other.members[i]);
        assert other.members[..i + 1][..i] == other.members[..i];
        i := i + 1;
      }
      assert other.members[..i] == other.members;
    }
  }

  /** phaseContainsBeat: strictly inside, or equal to either end. */
  predicate PhaseContainsBeat(first: int, last: int, target: int)
  {
    (first < target && last > target) || first == target || last == target
  }

  /** For a well-formed phase this is plain interval membership. */
  lemma PhaseContainsBeatInterval(first: int, last: int, target: int)
    requires first <= last
    ensures PhaseContainsBeat(first, last, target) <==> first <= target <= last
  {
  }

  /** isAliveInPhase: born before the phase's last beat, and alive or dying after it. */
  predicate IsAliveInPhase(life: LifeDetails, last: int)
  {
    life.birthBeatId < last && (life.isAlive || life.deathBeatId > last)
  }

  /**
   * getGPMType: the lifecycle state of a group in the phase first..last,
   * decided in a fixed order: BIRTH, then DEATH, then ACTIVE, else INACTIVE.
   */
  function GPMTypeOf(life: LifeDetails, first: int, last: int): GPMType
  {
    if PhaseContainsBeat(first, last, life.birthBeatId) then BIRTH
    else if !life.isAlive && PhaseContainsBeat(first, last, life.deathBeatId) then DEATH
    else if IsAliveInPhase(life, last) then ACTIVE
    else INACTIVE
  }

  /** An alive group is never DEATH; a phase holding both birth and death says BIRTH. */
  lemma GPMTypePriorities(life: LifeDetails, first: int, last: int)
    ensures life.isAlive ==> GPMTypeOf(life, first, last) != DEATH
    ensures (PhaseContainsBeat(first, last, life.birthBeatId) && PhaseContainsBeat(first, last, life.deathBeatId))
      ==> GPMTypeOf(life, first, last) == BIRTH
  {
  }

  /** A phase that ends before the birth finds the group INACTIVE. */
  lemma GPMTypeBeforeBirth(life: LifeDetails, first: int, last: int)
    requires first <= last < life.birthBeatId <= life.deathBeatId
    ensures GPMTypeOf(life, first, last) == INACTIVE
  {
  }

  /** A phase strictly between the birth and the death of a group finds it ACTIVE. */
  lemma GPMTypeInside(life: LifeDetails, first: int, last: int)
    requires life.birthBeatId < first <= last < life.deathBeatId
    ensures GPMTypeOf(life, first, last) == ACTIVE
  {
  }
}
