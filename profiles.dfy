/** The parameters of the two clustering algorithms. */
module Profiles {

  /** How many phases to keep and how much the changes weigh against time. */
  datatype BeatClusteringProfile = BeatClusteringProfile(desiredNumberOfPhases: int, changesWeight: real, withPreprocessing: bool)
  {
    /** Time gets whatever weight the changes leave. */
    function TimeWeight(): (w: real)
      ensures w + changesWeight == 1.0
    {
      1.0 - changesWeight
    }
  }

  /** The one-argument constructor: changes and time weigh 0.5 each, no preprocessing. */
  function DefaultBeatProfile(desired: int): (p: BeatClusteringProfile)
    ensures p.desiredNumberOfPhases == desired
    ensures p.changesWeight == 0.5 && p.TimeWeight() == 0.5 && !p.withPreprocessing
  {
    BeatClusteringProfile(desired, 0.5, false)
  }

  /** How many entity groups to keep and the weights of the three distances, stored unchecked. */
  datatype EntityClusteringProfile = EntityClusteringProfile(desiredNumberOfEntityGroups: int, birthWeight: real, deathWeight: real, changesWeight: real)

  /** The one-argument constructor: birth 0.25, death 0.25, changes 0.5, which add up to 1. */
  function DefaultEntityProfile(desired: int): (p: EntityClusteringProfile)
    ensures p.desiredNumberOfEntityGroups == desired
    ensures p.birthWeight == 0.25 && p.deathWeight == 0.25 && p.changesWeight == 0.5
    ensures p.birthWeight + p.deathWeight + p.changesWeight == 1.0
  {
    EntityClusteringProfile(desired, 0.25, 0.25, 0.5)
  }
}
