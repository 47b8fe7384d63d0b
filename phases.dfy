/** A phase: a run of consecutive beats under one id. */
module Phases {
  import opened Models
  import Text

  /** The ids of the beats, in order: the phase's idList. */
  function BeatIds(beats: seq<Beat>): (r: seq<int>)
    ensures |r| == |beats|
  {
    if beats == [] then [] else BeatIds(beats[..|beats| - 1]) + [beats[|beats| - 1].beatId]
  }

  lemma {:induction false} BeatIdsElements(beats: seq<Beat>)
    ensures forall k :: 0 <= k < |beats| ==> BeatIds(beats)[k] == beats[k].beatId
    decreases |beats|
  {
    if beats != [] {
      BeatIdsElements(beats[..|beats| - 1]);
    }
  }

  /** "{" id "," first beat id "," last beat id "}", the GPM header field of a phase. */
  function PhaseString(phaseId: int, first: int, last: int): string
  {
    "{" + Text.IntToString(phaseId) + "," + Text.IntToString(first) + "," + Text.IntToString(last) + "}"
  }

  class Phase {
    var phaseId: int
    var components: seq<Beat>
    var idList: seq<int>

    /** The id list mirrors the beats, and a phase is never empty. */
    ghost predicate Valid()
      reads this
    {
      |components| >= 1 && idList == BeatIds(components)
    }

    constructor (id: int, firstBeat: Beat)
      ensures Valid()
      ensures phaseId == id && components == [firstBeat] && idList == [firstBeat.beatId]
    {
      phaseId := id;
      components := [firstBeat];
      idList := [firstBeat.beatId];
    }

    method AddBeat(b: Beat)
      requires Valid()
      modifies this
      ensures Valid()
      ensures components == old(components) + [b] && phaseId == old(phaseId)
    {
      components := components + [b];
      idList := idList + [b.beatId];
    }

    function FirstPhaseBeat(): (b: Beat)
      requires Valid()
      reads this
      ensures b == components[0]
    {
      components[0]
    }

    function LastPhaseBeat(): (b: Beat)
      requires Valid()
      reads this
      ensures b == components[|components| - 1]
    {
      components[|components| - 1]
    }

    /** containsBeat: a lookup in the id list, true exactly when one of the beats has that id. */
    function ContainsBeat(beatId: int): (r: bool)
      requires Valid()
      reads this
      ensures r <==> exists k :: 0 <= k < |components| && components[k].beatId == beatId
    {
      BeatIdsElements(components);
      beatId in idList
    }

    /** mergeWithPhase: the other phase's beats are appended in order; the other phase is untouched. */
    method MergeWithPhase(other: Phase)
      requires Valid() && other.Valid() && other != this
      modifies this
      ensures Valid()
      ensures components == old(components) + other.components && phaseId == old(phaseId)
    {
      var i := 0;
      while i < |other.components|
        invariant 0 <= i <= |other.components|
        invariant Valid() && phaseId == old(phaseId)
        invariant components == old(components) + other.components[..i]
      {
        AddBeat(other.components[i]);
        assert other.components[..i + 1] == other.components[..i] + [other.components[i]];
        i := i + 1;
      }
      assert other.components[..i] == other.components;
    }

    /** setPhaseId: only the id changes. */
    method SetPhaseId(id: int)
      modifies this
      ensures phaseId == id && components == old(components) && idList == old(idList)
    {
      phaseId := id;
    }

    function ToString(): (s: string)
      requires Valid()
      reads this
      ensures s == PhaseString(phaseId, components[0].beatId, components[|components| - 1].beatId)
    {
      PhaseString(phaseId, FirstPhaseBeat().beatId, LastPhaseBeat().beatId)
    }
  }
}
