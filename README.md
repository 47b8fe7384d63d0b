# Daintiness (Plutarch Parallel Lives) — a verified Dafny model

Daintiness summarises a time-indexed dataset of named entities — typically
the tables of a database schema observed over its history — into a small
grid. The grid's columns are **phases**: runs of consecutive time beats
found by greedy agglomerative clustering. Its rows are **entity groups**:
sets of entities clustered by birth, death and changes. Each
(group, phase) cell sums the members' measurements at the phase's beats,
kind by kind. Cells get a lifecycle class (birth, active, death, inactive)
and a three-bucket colour. Over that grid the system mines **patterns**:
births, updates or deaths in many rows of one phase, and "ladders" of
births that step down the rows across phases. The grid is saved as a GPM
file and read back. The measurements of every entity at every beat
(TEMs, time-entity measurements) come from a simple CSV/TSV file or from
a schema-evolution history. A web service keeps one controller per project
session.

The model covers, module by module:

- `Models`, `Kinds`, `Profiles`: beats, entities and their life details, measurements (`Measurement`, `EmptyIMeasurement`), TEMs, and the two clustering profiles.
- `Phases`, `Groups`: the mutable `Phase` and `EntityGroup` classes with their merges, and the four-way lifecycle classification `getGPMType`.
- `Distances`, `PhaseExtraction`, `GroupExtraction`, `Lists`: the value maps and the changes distance; `AgglomerativePhaseExtractor` and `EntityGroupExtractor` as classes whose merge loops keep partition invariants.
- `Cells`, `Chart`, `Colouring`, `GridRows`, `Grid`: `GroupPhaseMeasurement`, `ChartGroupPhaseMeasurement` and its comparator, the three-bucket colouring, and `ClusteringHandler` assembling, colouring, charting and sorting the grid.
- `GpmText`, `GpmWriter`, `Files`, `GpmRoundTrip`: the GPM text `ClusteringHandler` writes, the `FileHandler` parser, and the round trip between them.
- `Patterns`: `BDUAlgo`, `LadderAlgo` and `PatternComputationHandler`.
- `Text`, `Wrappers`: Java `split`, `join`, `"%d"` and `Integer.parseInt` over strings, and Option for `null` and exceptions.
- `Data`, `SimpleRows`, `SimpleLoading`, `SchemaEvo`: `DataHandler` with its indexes and TEM export, `SimpleRowParser`, `SimpleLoader`, `TableBeatMetrics` and `SchemaEvoLoader`; `ExportRoundTrip`: the TEM file `DataHandler` saves, read back by `SimpleLoader`.
- `MainControl`, `Projects`: `MainController` (its pattern cache, id lookups and cell breakdown) and `ProjectStore` (sessions, the session bound and idle expiry).

Numbers are exact `real`s. `Math.sqrt`, `NumberFormat`, `Double.parseDouble`,
date parsing and the clock enter as function parameters or arguments.

## Model

| member | source | states |
|---|---|---|
| Models.LifeFromSpan | PlutarchParallelLives/src/main/java/daintiness/models/LifeDetails.java:17-22 | the three-argument constructor keeps birth, death and alive and derives duration = death − birth + 1, which is positive exactly when birth ≤ death |
| Models.IMeasurement.AddToValue | PlutarchParallelLives/src/main/java/daintiness/models/measurement/Measurement.java:35-38 | the value grows by exactly the argument, kinds and colour unchanged; an empty measurement ignores it (EmptyIMeasurement.addToValue is empty) |
| Models.IMeasurement.SetColor | PlutarchParallelLives/src/main/java/daintiness/models/measurement/Measurement.java:44-46 | the colour becomes the argument, kinds and value unchanged; an empty measurement keeps its colour |
| Models.NewMeasurement | PlutarchParallelLives/src/main/java/daintiness/models/measurement/Measurement.java:12-18 | a new measurement has the given kinds and value and no colour |
| Models.NewEmptyMeasurement | PlutarchParallelLives/src/main/java/daintiness/models/measurement/EmptyIMeasurement.java:10-41 | an empty measurement has no kinds (null getters), value 0 and the colour of its GPM type |
| Models.EmptyColours | PlutarchParallelLives/src/main/java/daintiness/models/measurement/EmptyIMeasurement.java:10-49 | BIRTH falls through to DEATH (both black), ACTIVE and INACTIVE have their own colours, and addToValue/setColor leave an empty measurement as it was |
| Models.Measurement.constructor | PlutarchParallelLives/src/main/java/daintiness/models/measurement/Measurement.java:12-18 | the object's view is the fresh measurement of those kinds and value |
| Models.Measurement.AddToValue | PlutarchParallelLives/src/main/java/daintiness/models/measurement/Measurement.java:35-38 | value += v in place, colour unchanged |
| Models.Measurement.SetColor | PlutarchParallelLives/src/main/java/daintiness/models/measurement/Measurement.java:44-46 | colour replaced in place, value unchanged |
| Models.TimeEntityMeasurements.IndexOfKey | PlutarchParallelLives/src/main/java/daintiness/models/TimeEntityMeasurements.java:34-43 | the index of the first measurement with both kinds, or −1 iff none has them |
| Models.TimeEntityMeasurements.ValueOfKey | PlutarchParallelLives/src/main/java/daintiness/models/TimeEntityMeasurements.java:45-52 | the value of the first measurement of that kind, and 0 when there is none |
| Models.ContainsMeasurementType | PlutarchParallelLives/src/main/java/daintiness/models/TimeEntityMeasurements.java:34-43 | the scan returns the first matching index, equal to the specification IndexOfKey |
| Models.AbsentReadsAsZero | PlutarchParallelLives/src/main/java/daintiness/models/TimeEntityMeasurements.java:45-52 | a missing kind reads the same as a stored 0 |
| Profiles.BeatClusteringProfile.TimeWeight | PlutarchParallelLives/src/main/java/daintiness/clustering/BeatClusteringProfile.java:43-45 | the time weight and the changes weight add up to 1 |
| Profiles.DefaultBeatProfile | PlutarchParallelLives/src/main/java/daintiness/clustering/BeatClusteringProfile.java:27-31 | the one-argument profile keeps the phase count, weighs changes and time 0.5 each and disables preprocessing |
| Profiles.DefaultEntityProfile | PlutarchParallelLives/src/main/java/daintiness/clustering/EntityClusteringProfile.java:33-38 | the one-argument profile keeps the group count and weighs birth 0.25, death 0.25 and changes 0.5, which sum to 1 |
| Distances.MergeAddMeaning | PlutarchParallelLives/src/main/java/daintiness/clustering/AgglomerativePhaseExtractor.java:88-96 | after a merge the survivor's map has every key of either map; a key in both holds the sum of the two values, a key in one keeps that value |
| Distances.MergeAddAssociative | PlutarchParallelLives/src/main/java/daintiness/clustering/AgglomerativePhaseExtractor.java:88-96 | merging is associative, so a cluster's map is the key-wise sum of its members' maps whatever the merge order |
| Distances.TotalAppend | PlutarchParallelLives/src/main/java/daintiness/clustering/AgglomerativePhaseExtractor.java:88-96 | the merged map of two adjacent runs of clusters is the merge of their two sums |
| Distances.MergeInto | PlutarchParallelLives/src/main/java/daintiness/clustering/AgglomerativePhaseExtractor.java:88-96 | the key-by-key put loop yields exactly the key-wise sum of the two maps |
| Distances.SmallFirst | PlutarchParallelLives/src/main/java/daintiness/clustering/AgglomerativePhaseExtractor.java:132-145 | the smaller map comes first, and on a size tie the current map is the small one |
| Distances.SquaredChangeDistance | PlutarchParallelLives/src/main/java/daintiness/clustering/AgglomerativePhaseExtractor.java:131-158 | the stream sum over the smaller map's keys, a key missing from the larger map read as 0, is the specified sum of squares, and it is never negative (the square root is left out) |
| Distances.ChangeDistanceBasics | PlutarchParallelLives/src/main/java/daintiness/clustering/AgglomerativePhaseExtractor.java:131-158 | a map's distance to itself is 0 and no distance is negative |
| Distances.ChangeDistanceAsymmetricOnTies | PlutarchParallelLives/src/main/java/daintiness/clustering/AgglomerativePhaseExtractor.java:139-157 | keys only in the larger map are ignored and ties pick the first map, so {x:1} to {y:2} gives 1 but {y:2} to {x:1} gives 4 |
| Distances.SumOfSquaresPick | PlutarchParallelLives/src/main/java/daintiness/clustering/AgglomerativePhaseExtractor.java:148-157 | the stream sum does not depend on the order the keys are visited in |
| Distances.SumOfSquaresOnlySmallKeys | PlutarchParallelLives/src/main/java/daintiness/clustering/AgglomerativePhaseExtractor.java:148-157 | only the larger map's values at the smaller map's keys affect the distance |
| PhaseExtraction.JoinAtElements | PlutarchParallelLives/src/main/java/daintiness/clustering/AgglomerativePhaseExtractor.java:82-85 | merging phase i with i + 1 leaves one block holding both beat runs, the blocks before untouched and those after shifted down by one |
| PhaseExtraction.JoinCovers | PlutarchParallelLives/src/main/java/daintiness/clustering/AgglomerativePhaseExtractor.java:82-100 | a merge keeps the phases a cover of the timeline in order |
| PhaseExtraction.JoinStarts | PlutarchParallelLives/src/main/java/daintiness/clustering/AgglomerativePhaseExtractor.java:82-100 | after a merge each phase id is still the timeline position of its first beat (the survivor keeps its id) |
| PhaseExtraction.MergedEntry | PlutarchParallelLives/src/main/java/daintiness/clustering/AgglomerativePhaseExtractor.java:88-96 | the survivor's merged map is the sum of the beat maps over the joined run |
| PhaseExtraction.JoinSums | PlutarchParallelLives/src/main/java/daintiness/clustering/AgglomerativePhaseExtractor.java:88-99 | after the merge and the removal of the absorbed id, every phase's map is still the sum of its beats' maps |
| PhaseExtraction.MergeKeepsPartition | PlutarchParallelLives/src/main/java/daintiness/clustering/AgglomerativePhaseExtractor.java:82-100 | mergePhases preserves the partition invariant: cover, ids at block starts, maps are sums |
| PhaseExtraction.StartsFacts | PlutarchParallelLives/src/main/java/daintiness/clustering/AgglomerativePhaseExtractor.java:103-105 | ids strictly increase and the id difference of adjacent phases is the left phase's length |
| PhaseExtraction.TotalRangeSplit | PlutarchParallelLives/src/main/java/daintiness/clustering/AgglomerativePhaseExtractor.java:88-96 | the sums of adjacent beat ranges add up to the sum over their union |
| PhaseExtraction.PairDistancesAt | PlutarchParallelLives/src/main/java/daintiness/clustering/AgglomerativePhaseExtractor.java:52-68 | entry i of the distance list is the combined distance of phases i and i + 1 |
| PhaseExtraction.FirstArgMinMeaning | PlutarchParallelLives/src/main/java/daintiness/clustering/AgglomerativePhaseExtractor.java:49-68 | the chosen index holds a least distance and every earlier distance is strictly larger (the strict '>' test keeps the first minimum) |
| PhaseExtraction.DefaultKey | PlutarchParallelLives/src/main/java/daintiness/clustering/AgglomerativePhaseExtractor.java:12-30 | the single-profile constructor selects RAW values, SUM_OF_ALL for schema histories and NO_AGGREGATION otherwise |
| PhaseExtraction.AgglomerativePhaseExtractor.constructor | PlutarchParallelLives/src/main/java/daintiness/clustering/AgglomerativePhaseExtractor.java:23-30 | profile and data kept, key as DefaultKey, no phases yet |
| PhaseExtraction.AgglomerativePhaseExtractor.WithKinds | PlutarchParallelLives/src/main/java/daintiness/clustering/AgglomerativePhaseExtractor.java:32-40 | the four-argument constructor keeps the given measurement and aggregation kinds |
| PhaseExtraction.AgglomerativePhaseExtractor.Init | PlutarchParallelLives/src/main/java/daintiness/clustering/AgglomerativePhaseExtractor.java:107-129 | one fresh phase per beat, id = timeline position, each with that beat's entity -> value map; the partition invariant holds |
| PhaseExtraction.AgglomerativePhaseExtractor.AddSingletonPhase | PlutarchParallelLives/src/main/java/daintiness/clustering/AgglomerativePhaseExtractor.java:114-128 | one init round appends a phase holding beat j alone and records beat j's value map under id j |
| PhaseExtraction.AgglomerativePhaseExtractor.EntityValuesAt | PlutarchParallelLives/src/main/java/daintiness/clustering/AgglomerativePhaseExtractor.java:119-124 | the inner init loop builds each entity's value for the selected key at the beat (nothing when the beat has no TEMs) |
| PhaseExtraction.AgglomerativePhaseExtractor.MergePhases | PlutarchParallelLives/src/main/java/daintiness/clustering/AgglomerativePhaseExtractor.java:82-101 | phase i absorbs phase i + 1, its map becomes the key-wise sum, the absorbed id and phase are removed, and the invariant is kept |
| PhaseExtraction.AgglomerativePhaseExtractor.ClusterData | PlutarchParallelLives/src/main/java/daintiness/clustering/AgglomerativePhaseExtractor.java:42-80 | with K ≥ 1 exactly min(T, K) phases remain, they cut the timeline into consecutive runs in order, and they are numbered 0, 1, ... |
| PhaseExtraction.AgglomerativePhaseExtractor.MergeAndRenumber | PlutarchParallelLives/src/main/java/daintiness/clustering/AgglomerativePhaseExtractor.java:47-77 | the merge rounds then the renumbering leave min(T, K) phases covering the timeline, numbered by position |
| PhaseExtraction.AgglomerativePhaseExtractor.MergeRounds | PlutarchParallelLives/src/main/java/daintiness/clustering/AgglomerativePhaseExtractor.java:47-70 | merging continues while more than K phases remain and stops at exactly min(T, K), keeping the invariant |
| PhaseExtraction.AgglomerativePhaseExtractor.MergeClosestPair | PlutarchParallelLives/src/main/java/daintiness/clustering/AgglomerativePhaseExtractor.java:49-69 | one round merges the adjacent pair of least combined distance (the first one on ties) |
| PhaseExtraction.AgglomerativePhaseExtractor.ClosestPair | PlutarchParallelLives/src/main/java/daintiness/clustering/AgglomerativePhaseExtractor.java:49-68 | the scan over adjacent pairs returns the first index of least distance |
| PhaseExtraction.AgglomerativePhaseExtractor.PairDistanceAt | PlutarchParallelLives/src/main/java/daintiness/clustering/AgglomerativePhaseExtractor.java:57-63 | changes weight × root of the squared changes distance + time weight × time distance of the pair |
| PhaseExtraction.AgglomerativePhaseExtractor.TimeDistanceIsLength | PlutarchParallelLives/src/main/java/daintiness/clustering/AgglomerativePhaseExtractor.java:103-105 | the time distance of adjacent phases (difference of ids) is the left phase's number of beats |
| PhaseExtraction.AgglomerativePhaseExtractor.Renumber | PlutarchParallelLives/src/main/java/daintiness/clustering/AgglomerativePhaseExtractor.java:72-77 | the k-th phase gets id k and the beats stay where they are |
| PhaseExtraction.BeatMapsOfAt | PlutarchParallelLives/src/main/java/daintiness/clustering/AgglomerativePhaseExtractor.java:114-124 | position j of the beat maps is beat j's entity -> value map |
| PhaseExtraction.SingletonPartition | PlutarchParallelLives/src/main/java/daintiness/clustering/AgglomerativePhaseExtractor.java:107-129 | the state init leaves satisfies the partition invariant |
| GroupExtraction.ClosedDeath | PlutarchParallelLives/src/main/java/daintiness/clustering/EntityGroupExtractor.java:146-149 | an open death (−1) is read as the timeline length; any other death id is kept |
| GroupExtraction.BirthDistanceMetric | PlutarchParallelLives/src/main/java/daintiness/clustering/EntityGroupExtractor.java:154-158 | the birth distance is symmetric, never negative, and 0 exactly for equal birth ids |
| GroupExtraction.DeathDistanceMetric | PlutarchParallelLives/src/main/java/daintiness/clustering/EntityGroupExtractor.java:146-152 | the death distance is symmetric, never negative, and 0 exactly when the closed deaths agree |
| GroupExtraction.BeatDistanceBounds | PlutarchParallelLives/src/main/java/daintiness/clustering/EntityGroupExtractor.java:146-158 | for ids within the timeline the birth distance is at most 1, and an open death is as far as a death at the timeline's end |
| GroupExtraction.GroupSumAppend | PlutarchParallelLives/src/main/java/daintiness/clustering/EntityGroupExtractor.java:102-109 | a merged group's value map is the key-wise sum of the two groups' maps |
| GroupExtraction.GroupSumSingle | PlutarchParallelLives/src/main/java/daintiness/clustering/EntityGroupExtractor.java:166-180 | a singleton group's map is its entity's beat id -> value map |
| GroupExtraction.AllMembersMerge | PlutarchParallelLives/src/main/java/daintiness/clustering/EntityGroupExtractor.java:97-113 | group a absorbing group b and b leaving the list loses and duplicates no entity |
| GroupExtraction.MergedGroupSum | PlutarchParallelLives/src/main/java/daintiness/clustering/EntityGroupExtractor.java:102-109 | after the merge loop the survivor's map is the sum over both groups' members |
| GroupExtraction.MergeKeepsPartition | PlutarchParallelLives/src/main/java/daintiness/clustering/EntityGroupExtractor.java:97-114 | mergeEntityGroups preserves the partition invariant: every entity in exactly one group, ids increasing, maps are sums |
| GroupExtraction.SingletonPartition | PlutarchParallelLives/src/main/java/daintiness/clustering/EntityGroupExtractor.java:160-181 | the state init leaves satisfies the partition invariant |
| GroupExtraction.EntityGroupExtractor.constructor | PlutarchParallelLives/src/main/java/daintiness/clustering/EntityGroupExtractor.java:23-30 | the single-profile constructor selects RAW values, SUM_OF_ALL for schema histories and NO_AGGREGATION otherwise |
| GroupExtraction.EntityGroupExtractor.WithKinds | PlutarchParallelLives/src/main/java/daintiness/clustering/EntityGroupExtractor.java:32-40 | the four-argument constructor keeps the given kinds |
| GroupExtraction.EntityGroupExtractor.FirstClosestUnique | PlutarchParallelLives/src/main/java/daintiness/clustering/EntityGroupExtractor.java:48-79 | the scan's choice is determined: at most one pair is the first closest |
| GroupExtraction.EntityGroupExtractor.ScanStep | PlutarchParallelLives/src/main/java/daintiness/clustering/EntityGroupExtractor.java:73-77 | the strict '>' test replaces the best pair only by a strictly closer one, so ties keep the earlier pair |
| GroupExtraction.EntityGroupExtractor.ClusterData | PlutarchParallelLives/src/main/java/daintiness/clustering/EntityGroupExtractor.java:42-87 | with M ≥ 1 exactly min(N, M) groups remain, every entity is in exactly one of them, and they are numbered 0, 1, ... |
| GroupExtraction.EntityGroupExtractor.MergeRounds | PlutarchParallelLives/src/main/java/daintiness/clustering/EntityGroupExtractor.java:47-82 | merging continues while more than M groups remain and stops at exactly min(N, M), keeping the invariant |
| GroupExtraction.EntityGroupExtractor.MergeClosestPair | PlutarchParallelLives/src/main/java/daintiness/clustering/EntityGroupExtractor.java:47-81 | one round merges the first closest pair of the scan, the group at the larger index absorbing the other |
| GroupExtraction.EntityGroupExtractor.ClosestPair | PlutarchParallelLives/src/main/java/daintiness/clustering/EntityGroupExtractor.java:48-79 | the scan over all pairs (j < i, rows by i) returns the first pair at the least weighted distance |
| GroupExtraction.EntityGroupExtractor.ScanRow | PlutarchParallelLives/src/main/java/daintiness/clustering/EntityGroupExtractor.java:54-78 | row i of the scan compares i with every j below it and keeps the first closest so far |
| GroupExtraction.EntityGroupExtractor.ScanPair | PlutarchParallelLives/src/main/java/daintiness/clustering/EntityGroupExtractor.java:55-77 | pair (i, j) becomes the best only when nothing was seen yet or it is strictly closer |
| GroupExtraction.EntityGroupExtractor.PairDistanceAt | PlutarchParallelLives/src/main/java/daintiness/clustering/EntityGroupExtractor.java:58-70 | birth weight × birth distance + death weight × death distance + changes weight × root of the squared changes distance |
| GroupExtraction.EntityGroupExtractor.MergeEntityGroups | PlutarchParallelLives/src/main/java/daintiness/clustering/EntityGroupExtractor.java:97-114 | group a absorbs group b's members, its map becomes the key-wise sum, b's map and list entry are removed, and the invariant is kept |
| GroupExtraction.EntityGroupExtractor.MergeMembers | PlutarchParallelLives/src/main/java/daintiness/clustering/EntityGroupExtractor.java:98-100 | the object side of the merge: a takes b's members and b leaves the list |
| GroupExtraction.EntityGroupExtractor.Init | PlutarchParallelLives/src/main/java/daintiness/clustering/EntityGroupExtractor.java:160-181 | one fresh group per entity, id = position, each holding that entity's value map |
| GroupExtraction.EntityGroupExtractor.AddSingletonGroup | PlutarchParallelLives/src/main/java/daintiness/clustering/EntityGroupExtractor.java:167-180 | one init round appends a fresh group holding entity j alone, with its value map under id j |
| GroupExtraction.EntityGroupExtractor.EntityValues | PlutarchParallelLives/src/main/java/daintiness/clustering/EntityGroupExtractor.java:172-177 | the inner init loop builds the entity's value for the selected key at each beat it has a TEM for |
| GroupExtraction.EntityGroupExtractor.RenameEntityGroups | PlutarchParallelLives/src/main/java/daintiness/clustering/EntityGroupExtractor.java:89-95 | the k-th group gets id k and the members stay where they are |
| Groups.Names | PlutarchParallelLives/src/main/java/daintiness/clustering/EntityGroup.java:14-24 | the names list mirrors the members, position by position |
| Groups.AbsorbLife | PlutarchParallelLives/src/main/java/daintiness/clustering/EntityGroup.java:64-84 | updateGroupLifeDetails: the earlier birth, the later death, alive if either is, duration recomputed from the two |
| Groups.GroupLifeSummary | PlutarchParallelLives/src/main/java/daintiness/clustering/EntityGroup.java:56-84 | over a group the birth is the least member birth, the death the greatest member death, and it is alive iff some member is |
| Groups.GroupLifeAppend | PlutarchParallelLives/src/main/java/daintiness/clustering/EntityGroup.java:103-107 | absorbing another group's members one by one continues the fold over the concatenated member list |
| Groups.EntityGroup.constructor | PlutarchParallelLives/src/main/java/daintiness/clustering/EntityGroup.java:19-27 | a singleton group holds the entity and its name and carries its life details verbatim |
| Groups.EntityGroup.SetEntityGroupId | PlutarchParallelLives/src/main/java/daintiness/clustering/EntityGroup.java:40-42 | only the id changes |
| Groups.EntityGroup.AddEntityInGroup | PlutarchParallelLives/src/main/java/daintiness/clustering/EntityGroup.java:56-60 | the entity and its name are appended and its life details absorbed |
| Groups.EntityGroup.UpdateGroupLifeDetails | PlutarchParallelLives/src/main/java/daintiness/clustering/EntityGroup.java:64-84 | the life details become the absorbed ones, members unchanged |
| Groups.EntityGroup.MergeWithEntityGroup | PlutarchParallelLives/src/main/java/daintiness/clustering/EntityGroup.java:103-107 | the other group's members are appended in order, each one absorbed into the life details |
| Groups.PhaseContainsBeatInterval | PlutarchParallelLives/src/main/java/daintiness/clustering/EntityGroup.java:125-128 | for a phase with first ≤ last, containment (strictly inside or equal to an end) is interval membership |
| Groups.GPMTypePriorities | PlutarchParallelLives/src/main/java/daintiness/clustering/EntityGroup.java:109-123 | an alive group is never DEATH, and a phase holding the birth says BIRTH even if it also holds the death |
| Groups.GPMTypeBeforeBirth | PlutarchParallelLives/src/main/java/daintiness/clustering/EntityGroup.java:87-123 | a phase ending before the birth finds the group INACTIVE |
| Groups.GPMTypeInside | PlutarchParallelLives/src/main/java/daintiness/clustering/EntityGroup.java:87-123 | a phase strictly between birth and death finds the group ACTIVE |
| Groups.PhaseContainsBeat | PlutarchParallelLives/src/main/java/daintiness/clustering/EntityGroup.java:125-128 | a beat lies in a phase when it is between the first and the last beat, both included (Groups.PhaseContainsBeatInterval) |
| Groups.IsAliveInPhase | PlutarchParallelLives/src/main/java/daintiness/clustering/EntityGroup.java:87-100 | a group is alive in a phase when it was born before the phase's last beat and is alive or dies after that beat (used by Groups.GPMTypeOf) |
| Groups.GPMTypeOf | PlutarchParallelLives/src/main/java/daintiness/clustering/EntityGroup.java:109-123 | the GPM type of a group in a phase: BIRTH before DEATH before ACTIVE before INACTIVE (Groups.GPMTypePriorities, Groups.GPMTypeBeforeBirth, Groups.GPMTypeInside) |
| Phases.BeatIdsElements | PlutarchParallelLives/src/main/java/daintiness/clustering/Phase.java:11-12 | the id list holds, position by position, the ids of the beats |
| Phases.Phase.constructor | PlutarchParallelLives/src/main/java/daintiness/clustering/Phase.java:16-22 | a new phase holds just its first beat and that beat's id |
| Phases.Phase.AddBeat | PlutarchParallelLives/src/main/java/daintiness/clustering/Phase.java:45-48 | the beat is appended and the id list keeps mirroring the beats |
| Phases.Phase.FirstPhaseBeat | PlutarchParallelLives/src/main/java/daintiness/clustering/Phase.java:51-53 | the first beat of the (never empty) phase |
| Phases.Phase.LastPhaseBeat | PlutarchParallelLives/src/main/java/daintiness/clustering/Phase.java:56-58 | the last beat of the phase |
| Phases.Phase.ContainsBeat | PlutarchParallelLives/src/main/java/daintiness/clustering/Phase.java:61-63 | true exactly when one of the phase's beats has that id |
| Phases.Phase.MergeWithPhase | PlutarchParallelLives/src/main/java/daintiness/clustering/Phase.java:66-71 | the other phase's beats are appended in order, ids mirrored, the phase id kept |
| Phases.Phase.SetPhaseId | PlutarchParallelLives/src/main/java/daintiness/clustering/Phase.java:74-76 | only the id changes |
| Phases.Phase.ToString | PlutarchParallelLives/src/main/java/daintiness/clustering/Phase.java:78-83 | the header field built from the id and the first and last beat ids |
| Cells.KindsOf | PlutarchParallelLives/src/main/java/daintiness/clustering/measurements/GroupPhaseMeasurement.java:50-51 | the kinds list has one entry per measurement, its (measurement, aggregation) kind |
| Cells.KindTotalAppend | PlutarchParallelLives/src/main/java/daintiness/clustering/measurements/GroupPhaseMeasurement.java:46-59 | the per-kind total of a concatenation is the sum of the two totals |
| Cells.SameKindsAdd | PlutarchParallelLives/src/main/java/daintiness/clustering/measurements/GroupPhaseMeasurement.java:50-53 | adding a measurement into one of the same kinds adds its value and keeps the kinds |
| Cells.AddInto | PlutarchParallelLives/src/main/java/daintiness/clustering/measurements/GroupPhaseMeasurement.java:49-55 | every measurement of the new one's kinds gets its value added; the others are untouched |
| Cells.AbsorbKinds | PlutarchParallelLives/src/main/java/daintiness/clustering/measurements/GroupPhaseMeasurement.java:46-59 | one round keeps the kinds in place and appends the new kind only when it was absent |
| Cells.AbsorbedKinds | PlutarchParallelLives/src/main/java/daintiness/clustering/measurements/GroupPhaseMeasurement.java:43-60 | from an empty list, the kinds appear once each, in first-seen order |
| Cells.AddIntoTotal | PlutarchParallelLives/src/main/java/daintiness/clustering/measurements/GroupPhaseMeasurement.java:49-55 | with unique kinds, a kind's total rises by the new value exactly when it is that kind and present |
| Cells.AbsorbTotal | PlutarchParallelLives/src/main/java/daintiness/clustering/measurements/GroupPhaseMeasurement.java:46-59 | with unique kinds, one round raises exactly the new measurement's kind's total by its value |
| Cells.AbsorbedTotal | PlutarchParallelLives/src/main/java/daintiness/clustering/measurements/GroupPhaseMeasurement.java:43-60 | from an empty list, each kind's total equals the sum of the absorbed values of that kind |
| Cells.AbsorbedAppend | PlutarchParallelLives/src/main/java/daintiness/clustering/measurements/GroupPhaseMeasurement.java:43-60 | absorbing two lists in turn is absorbing their concatenation, so successive addTEM calls compose |
| Cells.GroupPhaseMeasurement.constructor | PlutarchParallelLives/src/main/java/daintiness/clustering/measurements/GroupPhaseMeasurement.java:19-24 | the cell starts with its group and phase and empty TEM and measurement lists |
| Cells.GroupPhaseMeasurement.AddTEM | PlutarchParallelLives/src/main/java/daintiness/clustering/measurements/GroupPhaseMeasurement.java:43-60 | the TEM is appended and the measurement list is the old one with the TEM's measurements absorbed; validity is kept |
| Cells.GroupPhaseMeasurement.ContainsMeasurementType | PlutarchParallelLives/src/main/java/daintiness/clustering/measurements/GroupPhaseMeasurement.java:63-72 | the index of the first measurement of both kinds, or -1 when there is none |
| Cells.GroupPhaseMeasurement.View | PlutarchParallelLives/src/main/java/daintiness/clustering/measurements/GroupPhaseMeasurement.java:27-41 | the cell's TEMs, measurements and phase id as read through its getters |
| Cells.AddOne | PlutarchParallelLives/src/main/java/daintiness/clustering/measurements/GroupPhaseMeasurement.java:46-59 | the found-flag scan over the whole list computes one absorb round |
| Cells.CellSums | PlutarchParallelLives/src/main/java/daintiness/clustering/measurements/GroupPhaseMeasurement.java:43-60 | a cell built by addTEM holds one measurement per kind, in first-seen order, each the total of its kind |
| Chart.ChartGroupPhaseMeasurement.constructor | PlutarchParallelLives/src/main/java/daintiness/clustering/measurements/ChartGroupPhaseMeasurement.java:24-28 | a new row has no entries and no activity |
| Chart.ChartGroupPhaseMeasurement.AddMeasurement | PlutarchParallelLives/src/main/java/daintiness/clustering/measurements/ChartGroupPhaseMeasurement.java:30-33 | the phase's entry is stored or overwritten and the activity grows by one |
| Chart.ChartGroupPhaseMeasurement.GetMeasurement | PlutarchParallelLives/src/main/java/daintiness/clustering/measurements/ChartGroupPhaseMeasurement.java:35-37 | the stored entry, or nothing (null) exactly when the phase has none |
| Chart.ChartGroupPhaseMeasurement.ContainsMeasurementInPhase | PlutarchParallelLives/src/main/java/daintiness/clustering/measurements/ChartGroupPhaseMeasurement.java:39-41 | true exactly when getMeasurement would not give null |
| Chart.ChartGroupPhaseMeasurement.NumberOfMeasurements | PlutarchParallelLives/src/main/java/daintiness/clustering/measurements/ChartGroupPhaseMeasurement.java:43-45 | the number of phases with an entry |
| Chart.ChartGroupPhaseMeasurement.SetMeasurementToPhaseMap | PlutarchParallelLives/src/main/java/daintiness/clustering/measurements/ChartGroupPhaseMeasurement.java:47-49 | the map is replaced and the activity left as it was |
| Chart.ActivityCountsEntries | PlutarchParallelLives/src/main/java/daintiness/clustering/measurements/ChartGroupPhaseMeasurement.java:30-45 | the entries never outnumber the activity, and equal it exactly when no phase id was added twice |
| Chart.CompareInt | PlutarchParallelLives/src/main/java/daintiness/clustering/measurements/ChartEntityGroupMeasurementsComparator.java:20-37 | Integer.compare: 0 iff equal, negative iff below |
| Chart.Compare | PlutarchParallelLives/src/main/java/daintiness/clustering/measurements/ChartEntityGroupMeasurementsComparator.java:17-57 | the comparator on the selected key, ascending or descending by sorting type; an order by Chart.CompareIsAnOrder |
| Chart.CompareIsAnOrder | PlutarchParallelLives/src/main/java/daintiness/clustering/measurements/ChartEntityGroupMeasurementsComparator.java:17-57 | compare is 0 iff the selected keys agree, antisymmetric, transitive, and not-after iff the keys are in the type's order (reversed for the descending types) |
| Chart.InsertBy | PlutarchParallelLives/src/main/java/daintiness/clustering/ClusteringHandler.java:89-92 | inserting keeps the rows as a multiset plus the new one |
| Chart.InsertBySorted | PlutarchParallelLives/src/main/java/daintiness/clustering/ClusteringHandler.java:89-92 | inserting into a sorted list keeps it sorted |
| Chart.SortBy | PlutarchParallelLives/src/main/java/daintiness/clustering/ClusteringHandler.java:89-92 | sortChartData: the same rows, with keys in the comparator's order; rows with equal keys keep their relative order (List.sort is stable), see Chart.SortByStable |
| Chart.InsertByStable | PlutarchParallelLives/src/main/java/daintiness/clustering/ClusteringHandler.java:89-92 | inserting an element keeps, for every key, the elements with that key in the order of the element followed by the list |
| Chart.SortByStable | PlutarchParallelLives/src/main/java/daintiness/clustering/ClusteringHandler.java:89-92 | sorting is stable: for every key, the elements with that key appear in the sorted list in the order they had before |
| Colouring.Divide | PlutarchParallelLives/src/main/java/daintiness/clustering/ClusteringHandler.java:392 | a double division: the quotient for a non-zero divisor, otherwise NaN exactly for 0/0 |
| Colouring.Truncate | PlutarchParallelLives/src/main/java/daintiness/clustering/ClusteringHandler.java:392 | rounding toward zero |
| Colouring.ToInt | PlutarchParallelLives/src/main/java/daintiness/clustering/ClusteringHandler.java:392 | the (int) cast stays in int range and truncates any in-range finite quotient |
| Colouring.ValueRange | PlutarchParallelLives/src/main/java/daintiness/clustering/ClusteringHandler.java:361-364 | the range widened by one when it exceeds one |
| Colouring.ColourConditionMeaning | PlutarchParallelLives/src/main/java/daintiness/clustering/ClusteringHandler.java:386-388 | a cell is coloured iff its phase starts after the birth and the group is alive or the phase ends before the death |
| Colouring.ZeroIsPale | PlutarchParallelLives/src/main/java/daintiness/clustering/ClusteringHandler.java:390-396 | a zero value gets group 10, the pale shade |
| Colouring.WideRangeBuckets | PlutarchParallelLives/src/main/java/daintiness/clustering/ClusteringHandler.java:361-396 | with a range wider than one, every non-zero value in range falls in group 0, 1 or 2 and gets a green |
| Colouring.NarrowRangeMaxUncoloured | PlutarchParallelLives/src/main/java/daintiness/clustering/ClusteringHandler.java:361-396 | with a range in (0, 1], the maximum lands in group 3, which has no colour (null) |
| Colouring.FlatRangeFirstGreen | PlutarchParallelLives/src/main/java/daintiness/clustering/ClusteringHandler.java:361-396 | when min = max = v ≠ 0, 0/0 is NaN, cast to 0, the first green |
| Colouring.GroupsAreMonotone | PlutarchParallelLives/src/main/java/daintiness/clustering/ClusteringHandler.java:361-396 | in a wide range a larger non-zero value never gets a lower group |
| Colouring.ColoringGroup | PlutarchParallelLives/src/main/java/daintiness/clustering/ClusteringHandler.java:361-396 | the colour bucket of a value in the range: 10 for zero, otherwise Java's int cast of the value's offset from the minimum divided by a third of the range (Colouring.ZeroIsPale, Colouring.WideRangeBuckets, Colouring.NarrowRangeMaxUncoloured, Colouring.FlatRangeFirstGreen, Colouring.GroupsAreMonotone) |
| Colouring.ColourCondition | PlutarchParallelLives/src/main/java/daintiness/clustering/ClusteringHandler.java:386-388 | a cell is coloured when the phase starts after the group's birth and the group is alive or dies after the phase (Colouring.ColourConditionMeaning) |
| Grid.TemsAtMembers | PlutarchParallelLives/src/main/java/daintiness/clustering/ClusteringHandler.java:248-252 | the beat loop keeps exactly the indexed TEMs whose beat is in the phase |
| Grid.MemberTemsMembers | PlutarchParallelLives/src/main/java/daintiness/clustering/ClusteringHandler.java:246-252 | a member contributes exactly its indexed TEMs at the phase's beats |
| Grid.CellTemsMembers | PlutarchParallelLives/src/main/java/daintiness/clustering/ClusteringHandler.java:242-254 | a cell collects exactly the indexed TEMs of the group's members at the phase's beats |
| Grid.AllMeasurementsMeasured | PlutarchParallelLives/src/main/java/daintiness/clustering/ClusteringHandler.java:242-254 | loaded TEMs hold only real measurements, so a cell's list does too |
| Grid.AbsorbedMeasured | PlutarchParallelLives/src/main/java/daintiness/clustering/ClusteringHandler.java:242-254 | absorbing real measurements yields only real measurements |
| Grid.IndexedMeasured | PlutarchParallelLives/src/main/java/daintiness/clustering/ClusteringHandler.java:248-250 | every TEM of the index holds only real measurements |
| Grid.TemsAtStep | PlutarchParallelLives/src/main/java/daintiness/clustering/ClusteringHandler.java:248-252 | one more beat adds its TEM exactly when the beat is in the phase |
| Grid.MinMaxAppend | PlutarchParallelLives/src/main/java/daintiness/clustering/ClusteringHandler.java:262-287 | the min and max tracking over two lists is the tracking over the first, continued over the second |
| Grid.MinMaxSameKinds | PlutarchParallelLives/src/main/java/daintiness/clustering/ClusteringHandler.java:267-275 | the minimum and the maximum map always have the same kinds |
| Grid.MaxBounds | PlutarchParallelLives/src/main/java/daintiness/clustering/ClusteringHandler.java:262-287 | from empty, a kind has a maximum iff some measurement has it, it bounds them all and is attained |
| Grid.MinBounds | PlutarchParallelLives/src/main/java/daintiness/clustering/ClusteringHandler.java:262-287 | from empty, a kind has a minimum iff some measurement has it, it bounds them all from below and is attained |
| Grid.CellStep | PlutarchParallelLives/src/main/java/daintiness/clustering/ClusteringHandler.java:195-207 | the cell over the next phase is that phase's summed cell |
| Grid.RowsStep | PlutarchParallelLives/src/main/java/daintiness/clustering/ClusteringHandler.java:190-210 | one more group adds its row |
| Grid.ColouredRow | PlutarchParallelLives/src/main/java/daintiness/clustering/ClusteringHandler.java:373-401 | colouring one kind walks the row's kept cells and colours each cell as ColourCell says |
| Grid.NewChartRow | PlutarchParallelLives/src/main/java/daintiness/clustering/ClusteringHandler.java:107-117 | a fresh chart row with an entry per kept cell holding the kind, activity counting them |
| Grid.NewPhase | PlutarchParallelLives/src/main/java/daintiness/clustering/ClusteringHandler.java:152-161 | a loaded phase holds the beats from the first to the last id (the first alone when last < first) |
| Grid.Resolve | PlutarchParallelLives/src/main/java/daintiness/clustering/ClusteringHandler.java:170-174 | each name resolves to the first entity of that name |
| Grid.NewGroup | PlutarchParallelLives/src/main/java/daintiness/clustering/ClusteringHandler.java:168-176 | a loaded group holds the named entities in order with their absorbed life details |
| Grid.DefaultAggregationAgrees | PlutarchParallelLives/src/main/java/daintiness/clustering/ClusteringHandler.java:215-238 | the first aggregation offered is the export default, and only SCHEMA_EVO offers aggregations other than NO_AGGREGATION |
| Grid.ClusteringHandler.constructor | PlutarchParallelLives/src/main/java/daintiness/clustering/ClusteringHandler.java:38-51 | empty lists and min/max maps, with the measurement and aggregation types initialised for the file type |
| Grid.ClusteringHandler.InitializeMeasurementTypes | PlutarchParallelLives/src/main/java/daintiness/clustering/ClusteringHandler.java:215-238 | RAW and DELTA offered with RAW selected, and the file type's aggregation list with its first selected; nothing else changes |
| Grid.ClusteringHandler.UpdateMinMax | PlutarchParallelLives/src/main/java/daintiness/clustering/ClusteringHandler.java:262-287 | the min and max maps become the tracking continued over the measurements, with the same kinds; nothing else changes |
| Grid.ClusteringHandler.GenerateGroupPhaseMeasurement | PlutarchParallelLives/src/main/java/daintiness/clustering/ClusteringHandler.java:242-259 | the fresh cell's TEMs are exactly its members' indexed TEMs in the phase, and the min/max maps are continued over its measurements |
| Grid.ClusteringHandler.AddGroupTems | PlutarchParallelLives/src/main/java/daintiness/clustering/ClusteringHandler.java:244-254 | the cell's TEM list is the group's members' TEMs in the phase |
| Grid.ClusteringHandler.AddMemberTems | PlutarchParallelLives/src/main/java/daintiness/clustering/ClusteringHandler.java:246-253 | one member's TEMs in the phase are appended |
| Grid.ClusteringHandler.AddIfInPhase | PlutarchParallelLives/src/main/java/daintiness/clustering/ClusteringHandler.java:249-251 | the TEM is added exactly when its beat is in the phase |
| Grid.ClusteringHandler.NextCell | PlutarchParallelLives/src/main/java/daintiness/clustering/ClusteringHandler.java:196 | the next cell is the summed cell of the group over the phase |
| Grid.ClusteringHandler.PhaseStep | PlutarchParallelLives/src/main/java/daintiness/clustering/ClusteringHandler.java:195-207 | after a phase, the kept cells are those of the phases so far with measurements, and the activity counts them |
| Grid.ClusteringHandler.GroupRow | PlutarchParallelLives/src/main/java/daintiness/clustering/ClusteringHandler.java:190-209 | a group's row is its kept cells over all phases with their count as activity |
| Grid.ClusteringHandler.GroupStep | PlutarchParallelLives/src/main/java/daintiness/clustering/ClusteringHandler.java:190-210 | after a group, the rows are those of the groups so far |
| Grid.ClusteringHandler.GenerateGroupMeasurements | PlutarchParallelLives/src/main/java/daintiness/clustering/ClusteringHandler.java:187-212 | the rows of all groups over all phases, then every kind the max map holds is coloured |
| Grid.ClusteringHandler.GroupRows | PlutarchParallelLives/src/main/java/daintiness/clustering/ClusteringHandler.java:188-210 | the uncoloured rows of all groups over all phases |
| Grid.ClusteringHandler.ColouriseAllTypes | PlutarchParallelLives/src/main/java/daintiness/clustering/ClusteringHandler.java:290-296 | the rows coloured kind by kind for every kind with a minimum and maximum |
| Grid.ClusteringHandler.ColouriseSpecificType | PlutarchParallelLives/src/main/java/daintiness/clustering/ClusteringHandler.java:354-403 | the rows coloured for one kind with its minimum and maximum |
| Grid.ClusteringHandler.GenerateChartData | PlutarchParallelLives/src/main/java/daintiness/clustering/ClusteringHandler.java:102-124 | one fresh chart row per group row, holding each kept cell's measurement of the kind |
| Grid.ClusteringHandler.SortChartData | PlutarchParallelLives/src/main/java/daintiness/clustering/ClusteringHandler.java:88-92 | the same rows, in the comparator's order, and for every sort key the rows with that key keep their relative order |
| Grid.SortedByRowKey | PlutarchParallelLives/src/main/java/daintiness/clustering/ClusteringHandler.java:88-92 | sorting by a key that agrees with the comparator's compared value orders the rows by that value and keeps the rows of each value in their order |
| Grid.RowsWithKeyAgree | PlutarchParallelLives/src/main/java/daintiness/clustering/ClusteringHandler.java:88-92 | filtering rows by a key function that agrees with the row's sort key picks the same rows as filtering by the sort key |
| Grid.ClusteringHandler.GetPhasesString | PlutarchParallelLives/src/main/java/daintiness/clustering/ClusteringHandler.java:338-351 | the header line of the phases |
| Grid.ClusteringHandler.GenerateGpmString | PlutarchParallelLives/src/main/java/daintiness/clustering/ClusteringHandler.java:308-335 | a row's GPM line from its group and its per-phase values |
| Grid.ClusteringHandler.GetGpmString | PlutarchParallelLives/src/main/java/daintiness/clustering/ClusteringHandler.java:298-305 | the GPM text: the header and one line per chart row |
| Grid.ClusteringHandler.LoadPhases | PlutarchParallelLives/src/main/java/daintiness/clustering/ClusteringHandler.java:150-164 | one phase per triple is appended, each the beats from its first to its last id |
| Grid.ClusteringHandler.LoadEntityGroup | PlutarchParallelLives/src/main/java/daintiness/clustering/ClusteringHandler.java:166-178 | one group per id is appended, in ascending id order, holding the named entities |
| GridRows.KeptMeaning | PlutarchParallelLives/src/main/java/daintiness/clustering/ClusteringHandler.java:205-207 | a group keeps exactly its cells with measurements |
| GridRows.ColourRow | PlutarchParallelLives/src/main/java/daintiness/clustering/ClusteringHandler.java:373-401 | colouring a row keeps its group, life and activity and colours each cell |
| GridRows.ColourRows | PlutarchParallelLives/src/main/java/daintiness/clustering/ClusteringHandler.java:373-401 | colouring rows colours each row |
| GridRows.ColourAllCells | PlutarchParallelLives/src/main/java/daintiness/clustering/ClusteringHandler.java:290-296 | colouring all kinds keeps each row's shape and colours every cell for every kind |
| GridRows.ColourCellShape | PlutarchParallelLives/src/main/java/daintiness/clustering/ClusteringHandler.java:380-398 | colouring a cell changes at most the colour of its measurement of the kind |
| GridRows.UniqueKindIndex | PlutarchParallelLives/src/main/java/daintiness/clustering/ClusteringHandler.java:63-72 | with unique kinds, a measurement has the kind iff it is the first with it |
| GridRows.ColourCellAllMeaning | PlutarchParallelLives/src/main/java/daintiness/clustering/ClusteringHandler.java:290-398 | after all kinds, each measurement carries the colour of its own kind's bucket when the cell meets the condition, else its old colour |
| GridRows.ChartActivity | PlutarchParallelLives/src/main/java/daintiness/clustering/ClusteringHandler.java:107-117 | the chart activity is at most the number of cells |
| GridRows.DistinctPhasesFront | PlutarchParallelLives/src/main/java/daintiness/clustering/ClusteringHandler.java:195-207 | distinct phase ids stay distinct in a prefix |
| GridRows.ChartEntriesKeys | PlutarchParallelLives/src/main/java/daintiness/clustering/ClusteringHandler.java:110-116 | the chart map has an entry for a phase iff one of the cells in it holds the kind |
| GridRows.ChartEntriesValues | PlutarchParallelLives/src/main/java/daintiness/clustering/ClusteringHandler.java:110-116 | each such entry is the cell's measurement of the kind |
| GridRows.ChartEntriesCount | PlutarchParallelLives/src/main/java/daintiness/clustering/ClusteringHandler.java:107-117 | with distinct phases, the chart map has as many entries as the activity counts |
| GpmText.HeaderFields | PlutarchParallelLives/src/main/java/daintiness/clustering/ClusteringHandler.java:342-348 | one header field per phase, in phase order |
| GpmText.PhaseIdsOf | PlutarchParallelLives/src/main/java/daintiness/clustering/ClusteringHandler.java:322-323 | the phase ids, in phase order |
| GpmText.Entries | PlutarchParallelLives/src/main/java/daintiness/clustering/ClusteringHandler.java:322-332 | at most one cell entry per phase |
| GpmText.RowTexts | PlutarchParallelLives/src/main/java/daintiness/clustering/ClusteringHandler.java:301-303 | one GPM line per chart row |
| GpmText.CellsTextJoin | PlutarchParallelLives/src/main/java/daintiness/clustering/ClusteringHandler.java:321-333 | the loop that adds a comma while the counter is below the entry count minus one writes the entries comma-joined |
| GpmText.Present | PlutarchParallelLives/src/main/java/daintiness/clustering/ClusteringHandler.java:322-324 | the phases listed are exactly those that have an entry |
| GpmText.PresentCount | PlutarchParallelLives/src/main/java/daintiness/clustering/ClusteringHandler.java:322-331 | one entry per present phase, and distinct phase ids give distinct present phases |
| GpmText.EntriesCountKeys | PlutarchParallelLives/src/main/java/daintiness/clustering/ClusteringHandler.java:322-331 | when every entry's phase is among the phases, there are as many entries as the map has keys |
| GpmText.RowTextFields | PlutarchParallelLives/src/main/java/daintiness/clustering/ClusteringHandler.java:308-335 | a GPM line is three tab-separated fields: the id, the braced comma-joined names, the braced comma-joined entries |
| GpmText.EntriesAppend | PlutarchParallelLives/src/main/java/daintiness/clustering/ClusteringHandler.java:322-331 | the entries of one more phase are appended to the entries so far |
| GpmText.CellsTextAppend | PlutarchParallelLives/src/main/java/daintiness/clustering/ClusteringHandler.java:322-331 | the cell text of one more phase continues the cell text so far |
| GpmText.CellsTextOne | PlutarchParallelLives/src/main/java/daintiness/clustering/ClusteringHandler.java:324-330 | a phase with an entry writes "id:value", followed by a comma unless it is the last entry |
| GpmText.CellsStep | PlutarchParallelLives/src/main/java/daintiness/clustering/ClusteringHandler.java:322-331 | one round of the phase loop extends the text and the entry count |
| GpmWriter.BoundsOf | PlutarchParallelLives/src/main/java/daintiness/clustering/ClusteringHandler.java:342-343 | each phase contributes its id and its first and last beat ids |
| GpmWriter.ValuesOf | PlutarchParallelLives/src/main/java/daintiness/clustering/ClusteringHandler.java:326 | each chart entry contributes its value |
| GpmWriter.GpmRowsOf | PlutarchParallelLives/src/main/java/daintiness/clustering/ClusteringHandler.java:301-303 | one GPM row per chart row |
| GpmWriter.PhasesHeader | PlutarchParallelLives/src/main/java/daintiness/clustering/ClusteringHandler.java:338-351 | the header loop writes the header text |
| GpmWriter.NamesPart | PlutarchParallelLives/src/main/java/daintiness/clustering/ClusteringHandler.java:309-320 | the name loop writes the names comma-joined, closing the brace and opening the cell list |
| GpmWriter.CellsPart | PlutarchParallelLives/src/main/java/daintiness/clustering/ClusteringHandler.java:321-333 | the phase loop writes the cell text |
| GpmWriter.RowLine | PlutarchParallelLives/src/main/java/daintiness/clustering/ClusteringHandler.java:308-335 | generateGPMString writes the row's GPM line |
| GpmWriter.GpmOf | PlutarchParallelLives/src/main/java/daintiness/clustering/ClusteringHandler.java:298-305 | getGPMString writes the header and one line per row |
| Text.RemoveCharAppend | PlutarchParallelLives/src/main/java/daintiness/io/FileHandler.java:173-174 | removing a character distributes over concatenation |
| GpmRoundTrip.StripBraces | PlutarchParallelLives/src/main/java/daintiness/io/FileHandler.java:173-174 | stripping the braces from a braced brace-free text gives the text back |
| GpmRoundTrip.IntToStringPlainAll | PlutarchParallelLives/src/main/java/daintiness/clustering/ClusteringHandler.java:309 | a written integer is non-empty and holds no separator |
| GpmRoundTrip.JoinListSafe | PlutarchParallelLives/src/main/java/daintiness/io/FileHandler.java:173-174 | joining separator-free parts with commas adds no brace, tab, '\n' or '\r' |
| GpmRoundTrip.BracedList | PlutarchParallelLives/src/main/java/daintiness/io/FileHandler.java:173-179 | parseListFromString of a braced comma-joined list of parts without ',', braces, tab or line terminator gives the parts back, when the last part is not empty and a part that stands alone is not blank (the empty list too) |
| GpmRoundTrip.PhaseFieldRoundTrip | PlutarchParallelLives/src/main/java/daintiness/io/FileHandler.java:164-169 | a phase header field reads back as the same id, first and last beat |
| GpmRoundTrip.PhaseFieldsRoundTrip | PlutarchParallelLives/src/main/java/daintiness/io/FileHandler.java:162-171 | the header fields read back as the same phases |
| GpmRoundTrip.CellEntryRoundTrip | PlutarchParallelLives/src/main/java/daintiness/io/FileHandler.java:151-155 | an "id:value" entry, for a value the number format writes without a separator and the parser reads, reads back as the same id and the value the parser makes of what was written |
| GpmRoundTrip.EntriesSafe | PlutarchParallelLives/src/main/java/daintiness/io/FileHandler.java:149-156 | for cell values the format writes readably, every written entry is separator-free and holds a colon |
| GpmRoundTrip.PutCellsEntries | PlutarchParallelLives/src/main/java/daintiness/io/FileHandler.java:151-156 | parsing the entries puts each phase's value, as written and read back, over the map so far |
| GpmRoundTrip.OverlayMeaning | PlutarchParallelLives/src/main/java/daintiness/io/FileHandler.java:151-156 | put in order: a key listed with a value takes that value, any other key keeps its old one |
| GpmRoundTrip.NotBlankWithColon | PlutarchParallelLives/src/main/java/daintiness/io/FileHandler.java:175 | a text with a colon is not blank |
| GpmRoundTrip.OverlayOfEmpty | PlutarchParallelLives/src/main/java/daintiness/io/FileHandler.java:148-156 | putting all of a map's keys into an empty map gives the map |
| GpmRoundTrip.CellsRoundTrip | PlutarchParallelLives/src/main/java/daintiness/io/FileHandler.java:147-160 | parseGroupPhaseMeasurements of a written cell list gives back the row's phases, each with its value as written and read back |
| Files.TerminatedLines | PlutarchParallelLives/src/main/java/daintiness/io/input/CsvReader.java:34-36 | lines each followed by '\n', with no '\n' or '\r' inside, read back as the same lines |
| Files.LineEnds | PlutarchParallelLives/src/main/java/daintiness/io/input/CsvReader.java:34-36 | BufferedReader's three line terminators ('\n', '\r', '\r' then '\n') each become one '\n': no '\r' is left, a text without '\r' is unchanged, and only the empty text becomes empty |
| Files.LineEndsEndedBy | PlutarchParallelLives/src/main/java/daintiness/io/input/CsvReader.java:34-36 | lines all ended by the same terminator, of any of the three kinds, become the same lines ended by '\n' |
| Files.EndedByLines | PlutarchParallelLives/src/main/java/daintiness/io/input/CsvReader.java:34-36 | a text whose lines all end in '\n', all in '\r' then '\n', or all in a lone '\r' reads back as the same lines |
| GpmRoundTrip.PhaseFieldSafe | PlutarchParallelLives/src/main/java/daintiness/io/FileHandler.java:164-165 | a phase field is non-empty and holds no tab, '\n' or '\r' |
| GpmRoundTrip.HeaderLine | PlutarchParallelLives/src/main/java/daintiness/io/FileHandler.java:123-124 | the header line holds no '\n' or '\r' and splits at tabs into its fields |
| GpmRoundTrip.RowLine | PlutarchParallelLives/src/main/java/daintiness/io/FileHandler.java:123-124 | a GPM line whose cell values the format writes readably holds no '\n' or '\r' and splits at tabs into its three fields |
| GpmRoundTrip.RowTextIsJoin | PlutarchParallelLives/src/main/java/daintiness/clustering/ClusteringHandler.java:308-335 | a GPM line is its three fields tab-joined |
| GpmRoundTrip.RowFieldsSafe | PlutarchParallelLives/src/main/java/daintiness/io/FileHandler.java:130-137 | the fields of a row whose cell values the format writes readably hold no tab, '\n' or '\r', and the cell field is non-empty |
| GpmRoundTrip.RowFieldsRoundTrip | PlutarchParallelLives/src/main/java/daintiness/io/FileHandler.java:133-136 | a group line reads back as the same id and names, and its cells with the values as written and read back |
| GpmRoundTrip.ParseGpmOfLines | PlutarchParallelLives/src/main/java/daintiness/io/FileHandler.java:122-141 | header then rows read back as the phases and the group-id maps |
| GpmRoundTrip.GpmFileRoundTrip | PlutarchParallelLives/src/main/java/daintiness/io/FileHandler.java:122-160 | reading the written GPM text gives back the phases, the names and the cells it was written from, each value as the format wrote it and the parser read it |
| GpmRoundTrip.GpmLines | PlutarchParallelLives/src/main/java/daintiness/io/FileHandler.java:123-124 | for cell values the format writes readably, the written text reads as the header line then one line per row |
| GpmRoundTrip.RowTextsFields | PlutarchParallelLives/src/main/java/daintiness/io/FileHandler.java:123-124 | for cell values the format writes readably, each written row line holds no '\n' or '\r' and splits into its fields |
| GpmRoundTrip.GpmTextLines | PlutarchParallelLives/src/main/java/daintiness/clustering/ClusteringHandler.java:298-305 | with no '\n' or '\r' inside the header or a row line, the written text's lines are the header line then the row lines |
| GpmRoundTrip.RowMapsMeaning | PlutarchParallelLives/src/main/java/daintiness/io/FileHandler.java:130-138 | with distinct group ids, the name and cell maps have exactly the written ids, each mapped to its row |
| GpmRoundTrip.GpmFileRoundTripMeaning | PlutarchParallelLives/src/main/java/daintiness/io/FileHandler.java:122-160 | written then read, the GPM data is the phases and, for each written group id, its names, its phases, and for each phase the value the parser makes of what the format wrote |
| GpmRoundTrip.ReadRowsKeepGroups | PlutarchParallelLives/src/main/java/daintiness/io/FileHandler.java:130-138 | reading the written values back keeps every row's group id, names and phases, so distinct group ids stay distinct |
| GpmRoundTrip.ReadRowsExact | PlutarchParallelLives/src/main/java/daintiness/io/FileHandler.java:151-155 | when the parser reads every written value back exactly, the rows read back are the rows written |
| GpmRoundTrip.GpmFileRoundTripExact | PlutarchParallelLives/src/main/java/daintiness/io/FileHandler.java:122-160 | when the parser reads every written value back exactly, reading the written GPM text gives back exactly the phases, names and cells it was written from |
| GpmRoundTrip.GroupedEntry | PlutarchParallelLives/src/main/java/daintiness/clustering/ClusteringHandler.java:324-326 | a number format that groups thousands writes the cell 1234.0 of phase 0 as the entry "0:1,234" |
| GpmRoundTrip.GroupedList | PlutarchParallelLives/src/main/java/daintiness/io/FileHandler.java:173-179 | parseListFromString cuts "{0:1,234}" into "0:1" and "234" |
| GpmRoundTrip.GroupedValueUnreadable | PlutarchParallelLives/src/main/java/daintiness/io/FileHandler.java:147-160 | with NumberFormat's grouping, a written cell list holding 1234.0 does not read back: the piece "234" has no colon and the parse fails |
| Files.ParseListFromString | PlutarchParallelLives/src/main/java/daintiness/io/FileHandler.java:173-179 | no part holds a comma |
| Files.ParsePhaseFields | PlutarchParallelLives/src/main/java/daintiness/io/FileHandler.java:162-171 | when the header parses, each phase is its field parsed |
| Files.ReadLines | PlutarchParallelLives/src/main/java/daintiness/io/input/CsvReader.java:34-36 | one row of tab-separated fields per line, a line ending at '\n', '\r' or '\r' then '\n' (Files.LineEnds), a terminator after the last line starting no empty line |
| Files.FieldsOfLines | PlutarchParallelLives/src/main/java/daintiness/io/input/CsvReader.java:34-36 | a text whose lines are a header line and further lines reads back as the fields of each, in line order |
| Files.RestFields | PlutarchParallelLives/src/main/java/daintiness/io/input/CsvReader.java:34-36 | the rows after the first are the tab-split fields of the text's lines after the first |
| Files.FileTypeOf | PlutarchParallelLives/src/main/java/daintiness/io/FileHandler.java:188 | FileType.valueOf: each type for exactly its own name, nothing otherwise |
| Files.FileHandler.constructor | PlutarchParallelLives/src/main/java/daintiness/io/FileHandler.java:16-29 | no file, type or GPM data yet |
| Files.FileHandler.ParseFileInfo | PlutarchParallelLives/src/main/java/daintiness/io/FileHandler.java:182-197 | a directory is a SCHEMA_EVO project of its name; a file takes its type from the upper-cased extension, failing where Java throws |
| Files.FileHandler.MapFileToParameter | PlutarchParallelLives/src/main/java/daintiness/io/FileHandler.java:209-218 | a "tem.tsv" name binds the TEM file, else a "gpm.tsv" name the GPM file, else nothing changes |
| Files.FileHandler.LoadPhases | PlutarchParallelLives/src/main/java/daintiness/io/FileHandler.java:162-171 | succeeds exactly when the header parses, and then the phases are the parsed ones |
| Files.FileHandler.ParseMeasurementsText | PlutarchParallelLives/src/main/java/daintiness/io/FileHandler.java:147-160 | the loop's map is the parsed cell list |
| Files.FileHandler.LoadGPMData | PlutarchParallelLives/src/main/java/daintiness/io/FileHandler.java:122-141 | succeeds exactly when every line parses, and then holds the parsed phases, names and cells |
| Files.PutCellsStep | PlutarchParallelLives/src/main/java/daintiness/io/FileHandler.java:151-156 | one entry more: a failure fails the parse, a success puts it |
| Files.GpmHeaderStep | PlutarchParallelLives/src/main/java/daintiness/io/FileHandler.java:131-132 | the first line is the header |
| Files.GpmRowStep | PlutarchParallelLives/src/main/java/daintiness/io/FileHandler.java:133-136 | each later line adds its group row |
| Files.GpmFailPrefix | PlutarchParallelLives/src/main/java/daintiness/io/FileHandler.java:130-139 | a failing line fails the whole load |
| Files.ParseGroupPhaseMeasurements | PlutarchParallelLives/src/main/java/daintiness/io/FileHandler.java:147-160 | the braced "id:value" list as a phase -> value map, later entries overriding earlier ones, None where a piece does not parse (GpmRoundTrip.CellsRoundTrip) |
| Files.ParseGpm | PlutarchParallelLives/src/main/java/daintiness/io/FileHandler.java:122-141 | the header line as the phases and each later line as a group row; None where a line raises (GpmRoundTrip.ParseGpmOfLines, Files.FileHandler.LoadGPMData) |
| Data.LastFor | PlutarchParallelLives/src/main/java/daintiness/data/DataHandler.java:77-87 | the last position holding the (name, beat) pair, -1 exactly when none does |
| Data.EntityIndexIsLast | PlutarchParallelLives/src/main/java/daintiness/data/DataHandler.java:73-88 | the name index maps exactly the loaded names, holds a (name, beat) pair iff some TEM has it, and then holds the last such TEM |
| Data.BeatIndexIsLast | PlutarchParallelLives/src/main/java/daintiness/data/DataHandler.java:73-88 | the beat index maps exactly the loaded beats, holds a pair iff some TEM has it, and then holds the last such TEM |
| Data.EntityIndex | PlutarchParallelLives/src/main/java/daintiness/data/DataHandler.java:73-88 | the entity name -> beat id -> TEM index, the last TEM winning (Data.EntityIndexIsLast) |
| Data.IndexesAgree | PlutarchParallelLives/src/main/java/daintiness/data/DataHandler.java:73-88 | both indexes hold the same pairs, each mapped to the same TEM |
| Data.DuplicatesCountedOnce | PlutarchParallelLives/src/main/java/daintiness/data/DataHandler.java:37-38 | a repeated TEM leaves the indexes as one copy does while the TEM count says two |
| Data.FirstNamed | PlutarchParallelLives/src/main/java/daintiness/data/DataHandler.java:96-104 | the first position of an entity of that name, -1 exactly when there is none |
| Data.Labels | PlutarchParallelLives/src/main/java/daintiness/data/DataHandler.java:121-122 | one label per beat, in timeline order |
| Data.CellTexts | PlutarchParallelLives/src/main/java/daintiness/data/DataHandler.java:152-167 | one cell text per beat of the timeline |
| Data.MeasurementsTextOf | PlutarchParallelLives/src/main/java/daintiness/data/DataHandler.java:134-171 | the loop over the population writes the measurements text |
| Data.MeasurementsTextStep | PlutarchParallelLives/src/main/java/daintiness/data/DataHandler.java:145-169 | one more entity appends its line |
| Data.EntityLineOf | PlutarchParallelLives/src/main/java/daintiness/data/DataHandler.java:146-168 | an entity's line is its info field, its cells and the newline |
| Data.CellsLineOf | PlutarchParallelLives/src/main/java/daintiness/data/DataHandler.java:152-167 | the beat loop writes each cell followed by a tab |
| Data.EntityLineFields | PlutarchParallelLives/src/main/java/daintiness/data/DataHandler.java:146-168 | an entity line splits at tabs into its info, one field per beat and the newline |
| Data.EntityInfo | PlutarchParallelLives/src/main/java/daintiness/data/DataHandler.java:146-150 | an entity encoded as {name,birth,death,alive} (SimpleRows.EntityInfoInner, SimpleRows.EntityInfoRoundTrip) |
| Data.TimelineTextFields | PlutarchParallelLives/src/main/java/daintiness/data/DataHandler.java:118-131 | the timeline line is the labels tab-joined and newline-terminated, and splits back into them |
| Data.DataHandler.constructor | PlutarchParallelLives/src/main/java/daintiness/data/DataHandler.java:11-19 | no type, timeline, population or TEMs yet |
| Data.DataHandler.SetType | PlutarchParallelLives/src/main/java/daintiness/data/DataHandler.java:41-43 | only the type changes |
| Data.DataHandler.Init | PlutarchParallelLives/src/main/java/daintiness/data/DataHandler.java:22-29 | the three lists are stored and both indexes rebuilt |
| Data.DataHandler.MapTEMs | PlutarchParallelLives/src/main/java/daintiness/data/DataHandler.java:73-88 | both indexes are rebuilt from the TEM list, nothing else changes |
| Data.DataHandler.GetNumberOfTEMs | PlutarchParallelLives/src/main/java/daintiness/data/DataHandler.java:36-39 | the length of the TEM list |
| Data.DataHandler.GetTem | PlutarchParallelLives/src/main/java/daintiness/data/DataHandler.java:63-71 | the indexed TEM for the pair, or nothing (the null-filled TEM) exactly when the index has none |
| Data.DataHandler.GetEntityByName | PlutarchParallelLives/src/main/java/daintiness/data/DataHandler.java:95-104 | nothing (null) exactly when no entity has the name, otherwise an entity of the population with that name |
| Data.DataHandler.GetBeat | PlutarchParallelLives/src/main/java/daintiness/data/DataHandler.java:106-109 | the beat at that position, nothing when out of range (where Java throws) |
| Data.DataHandler.GetTimelineAsString | PlutarchParallelLives/src/main/java/daintiness/data/DataHandler.java:118-131 | the labels tab-separated and newline-terminated |
| Data.DataHandler.GetMeasurementsAsString | PlutarchParallelLives/src/main/java/daintiness/data/DataHandler.java:134-171 | the measurements text with RAW values of SUM_OF_ALL for SCHEMA_EVO and NO_AGGREGATION otherwise |
| Data.DataHandler.GetTimeEntityMeasurementAsString | PlutarchParallelLives/src/main/java/daintiness/data/DataHandler.java:112-116 | the fixed header field, then the timeline line, then the measurements text |
| Data.GetTemFindsLast | PlutarchParallelLives/src/main/java/daintiness/data/DataHandler.java:63-88 | getTem finds a TEM iff one was loaded for the pair, and then the last one loaded |
| SchemaEvo.Bumped | PlutarchParallelLives/src/main/java/daintiness/io/input/schemaevo/TableBeatMetrics.java:29-39 | each kind of event raises only its own counter; an unsupported one changes nothing |
| SchemaEvo.BumpedTotal | PlutarchParallelLives/src/main/java/daintiness/io/input/schemaevo/TableBeatMetrics.java:16-39 | a supported event raises the event count by one |
| SchemaEvo.ValueByKind | PlutarchParallelLives/src/main/java/daintiness/io/input/schemaevo/TableBeatMetrics.java:41-63 | each aggregation sums exactly the counters it names; SUM_OF_ALL and NO_AGGREGATION sum all three |
| SchemaEvo.ValueByAggregation | PlutarchParallelLives/src/main/java/daintiness/io/input/schemaevo/TableBeatMetrics.java:41-63 | the counter selected by the aggregation type (SchemaEvo.ValueByKind, SchemaEvo.ValueBounded) |
| SchemaEvo.ValueBounded | PlutarchParallelLives/src/main/java/daintiness/io/input/schemaevo/TableBeatMetrics.java:41-63 | the value lies between 0 and the event count |
| SchemaEvo.TableBeatMetrics.constructor | PlutarchParallelLives/src/main/java/daintiness/io/input/schemaevo/TableBeatMetrics.java:10-14 | all three counters start at zero |
| SchemaEvo.TableBeatMetrics.AddInsertion | PlutarchParallelLives/src/main/java/daintiness/io/input/schemaevo/TableBeatMetrics.java:29-31 | one more insertion |
| SchemaEvo.TableBeatMetrics.AddDeletion | PlutarchParallelLives/src/main/java/daintiness/io/input/schemaevo/TableBeatMetrics.java:33-35 | one more deletion |
| SchemaEvo.TableBeatMetrics.AddUpdate | PlutarchParallelLives/src/main/java/daintiness/io/input/schemaevo/TableBeatMetrics.java:37-39 | one more update |
| SchemaEvo.TableBeatMetrics.GetValueByAggregationType | PlutarchParallelLives/src/main/java/daintiness/io/input/schemaevo/TableBeatMetrics.java:41-63 | the three guarded additions compute the aggregation's value |
| SchemaEvo.CountedChangesUnmarked | PlutarchParallelLives/src/main/java/daintiness/io/input/schemaevo/SchemaEvoLoader.java:279-295 | none of "Insertion:UpdateTable", "Deletion:UpdateTable", "Update:KeyChange" and "Update:TypeChange" is caught by the NewTable/DeleteTable test, so each is counted as a change |
| SchemaEvo.DeletionUnmarked | PlutarchParallelLives/src/main/java/daintiness/io/input/schemaevo/SchemaEvoLoader.java:279-295 | "Deletion:UpdateTable" contains neither "NewTable" nor "DeleteTable", though it starts with the same letter as the latter |
| SchemaEvo.ParseTransactionType | PlutarchParallelLives/src/main/java/daintiness/io/input/schemaevo/SchemaEvoLoader.java:279-301 | anything naming NewTable or DeleteTable is unsupported; each supported type for exactly its own labels |
| SchemaEvo.ParseTimeBeat | PlutarchParallelLives/src/main/java/daintiness/io/input/schemaevo/SchemaEvoLoader.java:139-154 | a beat iff the line has five fields and an integer id; id from field 0, label from field 3, date from field 4 (absent when unparsable) |
| SchemaEvo.ParseTableMeaning | PlutarchParallelLives/src/main/java/daintiness/io/input/schemaevo/SchemaEvoLoader.java:172-189 | a table from name, duration, birth and death, alive with the next field as death when the death field is "-", failing exactly where Java throws |
| SchemaEvo.ParseTable | PlutarchParallelLives/src/main/java/daintiness/io/input/schemaevo/SchemaEvoLoader.java:172-189 | a table line as an entity with the line's id (SchemaEvo.ParseTableMeaning) |
| SchemaEvo.TimelineOfMeaning | PlutarchParallelLives/src/main/java/daintiness/io/input/schemaevo/SchemaEvoLoader.java:123-136 | the timeline holds the parsed beats of the lines up to the first that fails |
| SchemaEvo.EntitiesOfAt | PlutarchParallelLives/src/main/java/daintiness/io/input/schemaevo/SchemaEvoLoader.java:157-169 | the i-th loaded table is line i parsed with id i |
| SchemaEvo.EntitiesOfStop | PlutarchParallelLives/src/main/java/daintiness/io/input/schemaevo/SchemaEvoLoader.java:157-169 | loading stops exactly at the first line that fails |
| SchemaEvo.EntitiesOfMeaning | PlutarchParallelLives/src/main/java/daintiness/io/input/schemaevo/SchemaEvoLoader.java:157-169 | the loaded tables are the lines parsed in order, ids counting from 0, up to the first failure |
| SchemaEvo.TimelineUnique | PlutarchParallelLives/src/main/java/daintiness/io/input/schemaevo/SchemaEvoLoader.java:123-136 | any beat list the loading loop could produce is the timeline |
| SchemaEvo.EntitiesUnique | PlutarchParallelLives/src/main/java/daintiness/io/input/schemaevo/SchemaEvoLoader.java:157-169 | any table list the loading loop could produce is the entity list |
| SchemaEvo.ParsedLinesAppend | PlutarchParallelLives/src/main/java/daintiness/io/input/schemaevo/SchemaEvoLoader.java:164-168 | one more parsed line extends the loaded tables |
| SchemaEvo.LastMapMeaning | PlutarchParallelLives/src/main/java/daintiness/io/input/schemaevo/SchemaEvoLoader.java:133 | put in order: a map of exactly the keys seen, each to its last value |
| SchemaEvo.LabelPairs | PlutarchParallelLives/src/main/java/daintiness/io/input/schemaevo/SchemaEvoLoader.java:133 | one (label, id) pair per beat |
| SchemaEvo.NamePairs | PlutarchParallelLives/src/main/java/daintiness/io/input/schemaevo/SchemaEvoLoader.java:166 | one (name, index) pair per table |
| SchemaEvo.LabelPairsAppend | PlutarchParallelLives/src/main/java/daintiness/io/input/schemaevo/SchemaEvoLoader.java:130-135 | one more beat adds its pair |
| SchemaEvo.NamePairsAppend | PlutarchParallelLives/src/main/java/daintiness/io/input/schemaevo/SchemaEvoLoader.java:164-168 | one more table adds its pair with its position |
| SchemaEvo.LastMapAppend | PlutarchParallelLives/src/main/java/daintiness/io/input/schemaevo/SchemaEvoLoader.java:133 | one more put overwrites the key |
| SchemaEvo.EmptyMetrics | PlutarchParallelLives/src/main/java/daintiness/io/input/schemaevo/SchemaEvoLoader.java:258-264 | an empty beat map for exactly the loaded table names |
| SchemaEvo.Mapped | PlutarchParallelLives/src/main/java/daintiness/io/input/schemaevo/SchemaEvoLoader.java:304-322 | the table's beat gets a counter entry bumped by the event; every other beat of it is unchanged |
| SchemaEvo.MappedElsewhere | PlutarchParallelLives/src/main/java/daintiness/io/input/schemaevo/SchemaEvoLoader.java:304-322 | other tables are untouched |
| SchemaEvo.LoadedMetrics | PlutarchParallelLives/src/main/java/daintiness/io/input/schemaevo/SchemaEvoLoader.java:192-210 | loading never adds or removes tables |
| SchemaEvo.LoadCompletes | PlutarchParallelLives/src/main/java/daintiness/io/input/schemaevo/SchemaEvoLoader.java:200-209 | the load completes iff every line is short, unsupported, or names a known table with an integer beat |
| SchemaEvo.TallyStep | PlutarchParallelLives/src/main/java/daintiness/io/input/schemaevo/SchemaEvoLoader.java:200-209 | the tally of the lines is the first line's contribution plus the rest's |
| SchemaEvo.PlusNothing | PlutarchParallelLives/src/main/java/daintiness/io/input/schemaevo/TableBeatMetrics.java:10-14 | adding the zero counts changes nothing |
| SchemaEvo.PlusAssociates | PlutarchParallelLives/src/main/java/daintiness/io/input/schemaevo/TableBeatMetrics.java:29-39 | adding counts associates |
| SchemaEvo.PlusTotal | PlutarchParallelLives/src/main/java/daintiness/io/input/schemaevo/TableBeatMetrics.java:16-18 | event counts add |
| SchemaEvo.BumpedIsPlus | PlutarchParallelLives/src/main/java/daintiness/io/input/schemaevo/TableBeatMetrics.java:29-39 | bumping is adding one event's counts |
| SchemaEvo.ChangeCounts | PlutarchParallelLives/src/main/java/daintiness/io/input/schemaevo/SchemaEvoLoader.java:267-276 | one change adds its own counts to its table and beat, and creates the beat's entry only for a supported event |
| SchemaEvo.AfterChange | PlutarchParallelLives/src/main/java/daintiness/io/input/schemaevo/SchemaEvoLoader.java:267-276 | the metrics after one atomic change line, None where it raises (SchemaEvo.ChangeCounts) |
| SchemaEvo.LoadStep | PlutarchParallelLives/src/main/java/daintiness/io/input/schemaevo/SchemaEvoLoader.java:201-209 | the load is the first line's change followed by the load of the rest |
| SchemaEvo.LoadedCounts | PlutarchParallelLives/src/main/java/daintiness/io/input/schemaevo/SchemaEvoLoader.java:192-210 | a complete load gives each (table, beat) its counts plus the tally of its supported events |
| SchemaEvo.LoadedFromEmpty | PlutarchParallelLives/src/main/java/daintiness/io/input/schemaevo/SchemaEvoLoader.java:192-210 | from the empty metrics, each (table, beat) holds exactly the tally of its events, and has an entry exactly when that tally has a positive total |
| SchemaEvo.CombinationsOver | PlutarchParallelLives/src/main/java/daintiness/io/input/schemaevo/SchemaEvoLoader.java:244-251 | one RAW measurement per kind, plus one DELTA per kind when there is a previous beat |
| SchemaEvo.CombinationsStep | PlutarchParallelLives/src/main/java/daintiness/io/input/schemaevo/SchemaEvoLoader.java:244-251 | one more kind appends its measurements |
| SchemaEvo.MeasuredFrom | PlutarchParallelLives/src/main/java/daintiness/io/input/schemaevo/SchemaEvoLoader.java:244-251 | every measurement is the RAW value or the DELTA of its own kind |
| SchemaEvo.KindsPresent | PlutarchParallelLives/src/main/java/daintiness/io/input/schemaevo/SchemaEvoLoader.java:244-251 | each kind's measurements are present |
| SchemaEvo.RawReadBack | PlutarchParallelLives/src/main/java/daintiness/io/input/schemaevo/SchemaEvoLoader.java:244-246 | the RAW measurement of a kind reads back as the current value of that kind |
| SchemaEvo.DeltaReadBack | PlutarchParallelLives/src/main/java/daintiness/io/input/schemaevo/SchemaEvoLoader.java:247-250 | a DELTA of a kind exists iff there is a previous beat, and reads back as current minus previous |
| SchemaEvo.BeatTEMs | PlutarchParallelLives/src/main/java/daintiness/io/input/schemaevo/SchemaEvoLoader.java:218-225 | one TEM per beat key |
| SchemaEvo.BeatTEMsStep | PlutarchParallelLives/src/main/java/daintiness/io/input/schemaevo/SchemaEvoLoader.java:218-225 | one more beat appends its TEM |
| SchemaEvo.BeatTEMsAt | PlutarchParallelLives/src/main/java/daintiness/io/input/schemaevo/SchemaEvoLoader.java:218-225 | the j-th TEM is at the j-th beat with that beat's combinations against the previous one |
| SchemaEvo.TableTEMs | PlutarchParallelLives/src/main/java/daintiness/io/input/schemaevo/SchemaEvoLoader.java:216-226 | one TEM per beat of the table |
| SchemaEvo.TableTEMsAt | PlutarchParallelLives/src/main/java/daintiness/io/input/schemaevo/SchemaEvoLoader.java:218-225 | the j-th TEM of a table is at its j-th beat in ascending order, with the (j-1)-th as previous |
| SchemaEvo.SortedPrevious | PlutarchParallelLives/src/main/java/daintiness/io/input/schemaevo/SchemaEvoLoader.java:217-224 | in ascending order, a beat has an earlier one iff it is not the first, and then the immediately earlier one is the previous |
| SchemaEvo.TableTEMsOrder | PlutarchParallelLives/src/main/java/daintiness/io/input/schemaevo/SchemaEvoLoader.java:218-225 | each TEM is for the table's entity at the beat's position in the timeline |
| SchemaEvo.TableTEMsRaw | PlutarchParallelLives/src/main/java/daintiness/io/input/schemaevo/SchemaEvoLoader.java:244-246 | each TEM's RAW value of a kind is that beat's count of the kind |
| SchemaEvo.TableTEMsDelta | PlutarchParallelLives/src/main/java/daintiness/io/input/schemaevo/SchemaEvoLoader.java:247-250 | the first beat of a table has no DELTA; every later one's is its count minus the previous beat's |
| SchemaEvo.AllTEMsCount | PlutarchParallelLives/src/main/java/daintiness/io/input/schemaevo/SchemaEvoLoader.java:213-227 | one TEM per (table, beat) entry |
| SchemaEvo.AllTEMs | PlutarchParallelLives/src/main/java/daintiness/io/input/schemaevo/SchemaEvoLoader.java:213-227 | the TEMs of every table in table order (SchemaEvo.AllTEMsCount, SchemaEvo.SchemaEvoLoader.GenerateTimeEntityMeasurements) |
| SchemaEvo.ReadTimeline | PlutarchParallelLives/src/main/java/daintiness/io/input/schemaevo/SchemaEvoLoader.java:123-136 | the timeline loop builds the parsed beats and the label -> id map |
| SchemaEvo.ReadEntities | PlutarchParallelLives/src/main/java/daintiness/io/input/schemaevo/SchemaEvoLoader.java:157-169 | the table loop builds the parsed tables and the name -> index map |
| SchemaEvo.MeasureBeat | PlutarchParallelLives/src/main/java/daintiness/io/input/schemaevo/SchemaEvoLoader.java:230-255 | the combinations of the beat's counts, against the previous beat's when there is one |
| SchemaEvo.MeasureTable | PlutarchParallelLives/src/main/java/daintiness/io/input/schemaevo/SchemaEvoLoader.java:216-226 | one table's TEMs |
| SchemaEvo.SchemaEvoLoader.constructor | PlutarchParallelLives/src/main/java/daintiness/io/input/schemaevo/SchemaEvoLoader.java:35-40 | empty timeline, tables, maps and TEMs |
| SchemaEvo.SchemaEvoLoader.LoadTimeLine | PlutarchParallelLives/src/main/java/daintiness/io/input/schemaevo/SchemaEvoLoader.java:123-136 | the timeline and its label -> id map, failing where a line fails to parse |
| SchemaEvo.SchemaEvoLoader.LoadEntities | PlutarchParallelLives/src/main/java/daintiness/io/input/schemaevo/SchemaEvoLoader.java:157-169 | the tables and their name -> index map, failing where a line fails to parse |
| SchemaEvo.SchemaEvoLoader.InitTablesInMap | PlutarchParallelLives/src/main/java/daintiness/io/input/schemaevo/SchemaEvoLoader.java:258-264 | an empty beat map per table |
| SchemaEvo.SchemaEvoLoader.MapToMetrics | PlutarchParallelLives/src/main/java/daintiness/io/input/schemaevo/SchemaEvoLoader.java:304-322 | the event bumps its table's beat counter |
| SchemaEvo.SchemaEvoLoader.HandleAtomicChange | PlutarchParallelLives/src/main/java/daintiness/io/input/schemaevo/SchemaEvoLoader.java:267-276 | the change as AfterChange states it, no change on failure |
| SchemaEvo.SchemaEvoLoader.LoadMetrics | PlutarchParallelLives/src/main/java/daintiness/io/input/schemaevo/SchemaEvoLoader.java:192-210 | the metrics of all lines from the empty map, and whether every line was handled |
| SchemaEvo.SchemaEvoLoader.CreateTEMCombinations | PlutarchParallelLives/src/main/java/daintiness/io/input/schemaevo/SchemaEvoLoader.java:230-255 | the combinations of the stored counts, against the previous beat's when there is one |
| SchemaEvo.SchemaEvoLoader.AppendTableTEMs | PlutarchParallelLives/src/main/java/daintiness/io/input/schemaevo/SchemaEvoLoader.java:216-226 | one table's TEMs are appended |
| SchemaEvo.SchemaEvoLoader.GenerateTimeEntityMeasurements | PlutarchParallelLives/src/main/java/daintiness/io/input/schemaevo/SchemaEvoLoader.java:213-227 | the TEMs of all tables in key order |
| Patterns.ClassifyMeaning | PlutarchParallelLives/src/main/java/daintiness/patterns/patternAlgos/BDUAlgo.java:25-40 | a cell is a birth iff the phase holds the group's birth, a death iff its GPM type is DEATH, an update iff ACTIVE with a measurement in the phase, and nothing otherwise |
| Patterns.Classify | PlutarchParallelLives/src/main/java/daintiness/patterns/patternAlgos/BDUAlgo.java:25-40 | the bucket a row falls into in a phase, or none (Patterns.ClassifyMeaning) |
| Patterns.BucketMembership | PlutarchParallelLives/src/main/java/daintiness/patterns/patternAlgos/BDUAlgo.java:23-42 | a phase's bucket of a kind holds exactly the cells of the rows classified that way, all in that phase |
| Patterns.BucketSizes | PlutarchParallelLives/src/main/java/daintiness/patterns/patternAlgos/BDUAlgo.java:23-42 | every row lands in at most one bucket: the three buckets and the unclassified rows add up to the row count |
| Patterns.PhasePatternsMeaning | PlutarchParallelLives/src/main/java/daintiness/patterns/patternAlgos/BDUAlgo.java:45-76 | a phase reports exactly its buckets of the requested kinds (all three for NO_TYPE) holding more cells than the threshold |
| Patterns.BduPatternsMeaning | PlutarchParallelLives/src/main/java/daintiness/patterns/patternAlgos/BDUAlgo.java:16-80 | the BDU patterns are exactly the buckets, over all phases, of the requested kinds that exceed the threshold |
| Patterns.BduPatterns | PlutarchParallelLives/src/main/java/daintiness/patterns/patternAlgos/BDUAlgo.java:16-80 | the BDU patterns over the phases (Patterns.BduPatternsMeaning, Patterns.FindBduPatterns) |
| Patterns.BduPatternsHas | PlutarchParallelLives/src/main/java/daintiness/patterns/patternAlgos/BDUAlgo.java:16-80 | one pattern is reported iff some phase's bucket makes it a hit |
| Patterns.BucketAppend | PlutarchParallelLives/src/main/java/daintiness/patterns/patternAlgos/BDUAlgo.java:23-42 | the bucket over two runs of rows is the first run's bucket then the second's |
| Patterns.SilentRowUnreported | PlutarchParallelLives/src/main/java/daintiness/patterns/patternAlgos/BDUAlgo.java:32-40 | a row that is no birth, update or death can be dropped without changing any bucket |
| Patterns.FillBuckets | PlutarchParallelLives/src/main/java/daintiness/patterns/patternAlgos/BDUAlgo.java:19-42 | the row loop fills the three buckets |
| Patterns.BduPatternsStep | PlutarchParallelLives/src/main/java/daintiness/patterns/patternAlgos/BDUAlgo.java:18-77 | one more phase appends its patterns |
| Patterns.SelectPatterns | PlutarchParallelLives/src/main/java/daintiness/patterns/patternAlgos/BDUAlgo.java:45-76 | the buckets reported for the requested kind, in births, updates, deaths order |
| Patterns.FindBduPatterns | PlutarchParallelLives/src/main/java/daintiness/patterns/patternAlgos/BDUAlgo.java:16-80 | BDUAlgo.FindPattern returns the BDU patterns |
| Patterns.IndexOfMeaning | PlutarchParallelLives/src/main/java/daintiness/patterns/patternAlgos/LadderAlgo.java:29-30 | List.indexOf: the first position of the name, -1 exactly when absent |
| Patterns.FilledAppend | PlutarchParallelLives/src/main/java/daintiness/patterns/patternAlgos/LadderAlgo.java:18-22 | concatenated non-empty birth lists are non-empty |
| Patterns.FromListsAppend | PlutarchParallelLives/src/main/java/daintiness/patterns/patternAlgos/LadderAlgo.java:35-41 | appending a birth list keeps the buffer made of birth-list cells |
| Patterns.LadderScanStep | PlutarchParallelLives/src/main/java/daintiness/patterns/patternAlgos/LadderAlgo.java:18-57 | a link extends the buffer and the run; a break emits the distinct buffer when the run reaches the threshold, then resets |
| Patterns.LadderScanShape | PlutarchParallelLives/src/main/java/daintiness/patterns/patternAlgos/LadderAlgo.java:18-57 | the run stays between 1 and the links seen plus 1, it is 1 exactly when the buffer is empty, and every emitted pattern is a duplicate-free LADDER |
| Patterns.LadderPatternsShape | PlutarchParallelLives/src/main/java/daintiness/patterns/patternAlgos/LadderAlgo.java:13-64 | at most one pattern per link plus one, each a duplicate-free LADDER pattern of cells from the birth lists |
| Patterns.LadderPatterns | PlutarchParallelLives/src/main/java/daintiness/patterns/patternAlgos/LadderAlgo.java:13-64 | the ladder patterns of the birth lists (Patterns.LadderPatternsShape, Patterns.FindLadderPatterns) |
| Patterns.LadderCellsFromLists | PlutarchParallelLives/src/main/java/daintiness/patterns/patternAlgos/LadderAlgo.java:13-64 | every emitted pattern's cells come from the birth lists |
| Patterns.LadderShortInput | PlutarchParallelLives/src/main/java/daintiness/patterns/patternAlgos/LadderAlgo.java:18-62 | with fewer than two birth lists: nothing above threshold 1, and one empty LADDER pattern otherwise |
| Patterns.LadderEmptyPatternOnBreak | PlutarchParallelLives/src/main/java/daintiness/patterns/patternAlgos/LadderAlgo.java:46-54 | with threshold at most 1, a break at the first link emits an empty LADDER pattern |
| Patterns.ScanLadder | PlutarchParallelLives/src/main/java/daintiness/patterns/patternAlgos/LadderAlgo.java:18-57 | the link loop computes the scan state |
| Patterns.FindLadderPatterns | PlutarchParallelLives/src/main/java/daintiness/patterns/patternAlgos/LadderAlgo.java:13-64 | LadderAlgo.FindPattern returns the ladder patterns, the final buffer flushed |
| Patterns.FirstNames | PlutarchParallelLives/src/main/java/daintiness/patterns/patternAlgos/PatternComputationHandler.java:56-60 | the first member name of each row, in row order |
| Patterns.PreProcessingStep | PlutarchParallelLives/src/main/java/daintiness/patterns/patternAlgos/PatternComputationHandler.java:48-72 | one more phase appends its birth list when non-empty, and the first names when its id is 0 |
| Patterns.PreProcessingAdvance | PlutarchParallelLives/src/main/java/daintiness/patterns/patternAlgos/PatternComputationHandler.java:48-72 | the accumulated lists stay the old ones followed by those of the phases so far |
| Patterns.BirthsInPhase | PlutarchParallelLives/src/main/java/daintiness/patterns/patternAlgos/PatternComputationHandler.java:63-67 | a phase's birth list holds cells of that phase only |
| Patterns.BirthListsFilled | PlutarchParallelLives/src/main/java/daintiness/patterns/patternAlgos/PatternComputationHandler.java:69-71 | every stored birth list is non-empty and of one phase |
| Patterns.AscendingFront | PlutarchParallelLives/src/main/java/daintiness/patterns/patternAlgos/PatternComputationHandler.java:48 | ascending phase ids stay ascending in a prefix |
| Patterns.BirthListsAscend | PlutarchParallelLives/src/main/java/daintiness/patterns/patternAlgos/PatternComputationHandler.java:48-72 | with ascending phase ids, the stored birth lists have ascending phases |
| Patterns.LadderPhaseGapPositive | PlutarchParallelLives/src/main/java/daintiness/patterns/patternAlgos/LadderAlgo.java:24-26 | with ascending phase ids, every ladder link has a positive phase gap |
| Patterns.PatternComputationHandler.constructor | PlutarchParallelLives/src/main/java/daintiness/patterns/patternAlgos/PatternComputationHandler.java:16-18 | threshold 3 and empty accumulated lists |
| Patterns.PatternComputationHandler.PreProcessing | PlutarchParallelLives/src/main/java/daintiness/patterns/patternAlgos/PatternComputationHandler.java:46-73 | the birth lists and phase-0 names of these rows and phases are appended to those already held |
| Patterns.PatternComputationHandler.PhaseRound | PlutarchParallelLives/src/main/java/daintiness/patterns/patternAlgos/PatternComputationHandler.java:49-71 | one phase's birth list and names are appended |
| Patterns.PatternComputationHandler.ScanPhase | PlutarchParallelLives/src/main/java/daintiness/patterns/patternAlgos/PatternComputationHandler.java:51-68 | the row loop collects the phase's births and, in phase 0, the first names |
| Patterns.PatternComputationHandler.ComputePatterns | PlutarchParallelLives/src/main/java/daintiness/patterns/patternAlgos/PatternComputationHandler.java:20-44 | after preprocessing: LADDER runs the ladder miner, a MULTIPLE_* kind the BDU miner for it, any other kind both in turn |
| Patterns.Dispatch | PlutarchParallelLives/src/main/java/daintiness/patterns/patternAlgos/PatternComputationHandler.java:20-44 | LADDER selects the ladder patterns, a MULTIPLE_* kind the BDU patterns of that kind, NO_TYPE all BDU patterns followed by the ladder patterns (Patterns.PatternComputationHandler.ComputePatterns) |
| SimpleRows.FormatOf | PlutarchParallelLives/src/main/java/daintiness/io/input/SimpleRowParser.java:60-74 | ENTITY_INFO exactly when the first field is `{…}`; NORMAL only when it holds no comma, dot or double quote |
| SimpleRows.QuoteFrom | PlutarchParallelLives/src/main/java/daintiness/io/input/SimpleRowParser.java:100-105 | the first field from i on holding a double quote, every field before it quote-free, or -1 when none holds one |
| SimpleRows.FilledFrom | PlutarchParallelLives/src/main/java/daintiness/io/input/SimpleRowParser.java:124-133 | the first non-blank value from i on, every value before it blank, or -1 when all are blank |
| SimpleRows.FilledBefore | PlutarchParallelLives/src/main/java/daintiness/io/input/SimpleRowParser.java:144-149 | the last non-blank value below n, every value after it blank, or -1 |
| SimpleRows.LifeOfRow | PlutarchParallelLives/src/main/java/daintiness/io/input/SimpleRowParser.java:114-152 | birth is -1 exactly when every value is blank, and then death is the timeline size; otherwise birth ≤ death, the life lasts at least one beat, and for a row no longer than the timeline lies inside it |
| SimpleRows.EntityInfoOf | PlutarchParallelLives/src/main/java/daintiness/io/input/SimpleRowParser.java:42-58 | a parsed entity has at least three components, keeps the given id, and is alive exactly when the last component is "1" |
| SimpleRows.EntityInfoAsWritten | PlutarchParallelLives/src/main/java/daintiness/io/input/SimpleRowParser.java:42-58 | parseEntity as written, the name rebuilt from the line's fields (SimpleRows.AsWrittenDropsLastNamePart, SimpleRows.AsWrittenReadsValueIntoName) |
| SimpleRows.PiecesOfFields | PlutarchParallelLives/src/main/java/daintiness/data/DataHandler.java:150 | splitting name,birth,death,alive on commas gives the name's pieces followed by the three fields |
| SimpleRows.EntityInfoInner | PlutarchParallelLives/src/main/java/daintiness/io/input/SimpleRowParser.java:43-44 | an encoded entity is braced, and between the braces hold the name, birth, death and alive flag separated by commas |
| SimpleRows.EntityInfoComponents | PlutarchParallelLives/src/main/java/daintiness/io/input/SimpleRowParser.java:43-45 | the components of an encoded entity are the pieces of its name, then birth, death and the alive flag |
| SimpleRows.EntityInfoRoundTrip | PlutarchParallelLives/src/main/java/daintiness/io/input/SimpleRowParser.java:42-58 | an entity as encoded reads back with the same name, birth, death and alive flag, whatever commas its name holds |
| SimpleRows.AsWrittenDropsLastNamePart | PlutarchParallelLives/src/main/java/daintiness/io/input/SimpleRowParser.java:48-51 | the code as written reads `{a,b,0,2,1}` as an entity named "a", where the intended reading is "a,b" |
| SimpleRows.AsWrittenReadsValueIntoName | PlutarchParallelLives/src/main/java/daintiness/io/input/SimpleRowParser.java:48-51 | the code as written reads the line's first value into a three-part name: "a,5" where "a,b,c" was written |
| SimpleRows.RowAfter | PlutarchParallelLives/src/main/java/daintiness/io/input/SimpleRowParser.java:29-40 | a split line is non-empty, keeps the entity id, and its values are the line from a split point between 1 and the line's length |
| SimpleRows.ExportedRow | PlutarchParallelLives/src/main/java/daintiness/io/input/SimpleRowParser.java:29-58 | a line starting with an encoded entity splits at 1 into that entity, renumbered, and the remaining fields as values |
| SimpleRows.QuotedSplitPoint | PlutarchParallelLives/src/main/java/daintiness/io/input/SimpleRowParser.java:98-107 | a name in double quotes cut into fields is MULTI_WORDS, and the first quoted field after the first is the one closing the quote |
| SimpleRows.Unquoted | PlutarchParallelLives/src/main/java/daintiness/io/input/SimpleRowParser.java:93 | removing the double quotes from a quoted quote-free text gives the text |
| SimpleRows.JoinUnquoted | PlutarchParallelLives/src/main/java/daintiness/io/input/SimpleRowParser.java:87-92 | quote-free fields join into quote-free text |
| SimpleRows.QuotedName | PlutarchParallelLives/src/main/java/daintiness/io/input/SimpleRowParser.java:86-93 | the fields of a quoted name, comma-joined with the quotes removed, are the name as written |
| SimpleRows.QuotedNameRow | PlutarchParallelLives/src/main/java/daintiness/io/input/SimpleRowParser.java:82-107 | a quoted name cut by the separator is put back together, and the values start after the field closing the quote |
| SimpleRows.SimpleRowParser.constructor | PlutarchParallelLives/src/main/java/daintiness/io/input/SimpleRowParser.java:19-23 | line and entity id fixed, empty name and values, split point 1, no entity and no format yet |
| SimpleRows.SimpleRowParser.FindFormatType | PlutarchParallelLives/src/main/java/daintiness/io/input/SimpleRowParser.java:60-74 | the format becomes that of the first field, nothing else changes |
| SimpleRows.SimpleRowParser.FindSplitPoint | PlutarchParallelLives/src/main/java/daintiness/io/input/SimpleRowParser.java:98-107 | for a multi-word name the split point moves past the first quoted field after the first, otherwise it stays |
| SimpleRows.SimpleRowParser.ParseRowValue | PlutarchParallelLives/src/main/java/daintiness/io/input/SimpleRowParser.java:76-78 | the values become the line from the split point on |
| SimpleRows.SimpleRowParser.ParseRowName | PlutarchParallelLives/src/main/java/daintiness/io/input/SimpleRowParser.java:82-96 | the name becomes the first field, or for a multi-word name the comma-joined fields before the split point with quotes removed |
| SimpleRows.SimpleRowParser.GetBirthBeatId | PlutarchParallelLives/src/main/java/daintiness/io/input/SimpleRowParser.java:124-133 | the index of the first non-blank value, or -1 |
| SimpleRows.SimpleRowParser.GetDeathBeatId | PlutarchParallelLives/src/main/java/daintiness/io/input/SimpleRowParser.java:135-152 | the last non-blank value's index shifted by the columns the row lacks against the timeline, or the timeline size when all are blank |
| SimpleRows.SimpleRowParser.GenerateEntity | PlutarchParallelLives/src/main/java/daintiness/io/input/SimpleRowParser.java:114-122 | the entity gets the row name and the life from the first to the last filled value, alive |
| SimpleRows.SimpleRowParser.ParseEntity | PlutarchParallelLives/src/main/java/daintiness/io/input/SimpleRowParser.java:42-58 | succeeds exactly when the encoded entity can be read, and the entity becomes that reading (with the corrected name) |
| SimpleRows.SimpleRowParser.SplitNameAndValue | PlutarchParallelLives/src/main/java/daintiness/io/input/SimpleRowParser.java:29-40 | succeeds exactly when the line can be split, leaving split point, values, name and entity as RowAfter gives them and the format of the first field |
| SimpleLoading.HeaderTimeline | PlutarchParallelLives/src/main/java/daintiness/io/input/SimpleLoader.java:99-118 | the timeline exists exactly when every label after the first parses as a date (a four-character label as the first second of that year); then beat k is label k+1 with id k and its date |
| SimpleLoading.HeaderBeatIds | PlutarchParallelLives/src/main/java/daintiness/io/input/SimpleLoader.java:102-104 | the beats read from a header are numbered by position, keep their labels and carry a date |
| SimpleLoading.ParseTimeLine | PlutarchParallelLives/src/main/java/daintiness/io/input/SimpleLoader.java:99-107 | the loop over the header's fields builds exactly the header's timeline, or stops where a date does not parse |
| SimpleLoading.Pow2 | PlutarchParallelLives/src/main/java/daintiness/io/input/SimpleLoader.java:75 | the powers of two that give -Double.MIN_NORMAL, the value of a cell that does not parse, are at least 1 |
| SimpleLoading.PrefixedNothing | PlutarchParallelLives/src/main/java/daintiness/io/input/SimpleLoader.java:92 | putting nothing in front of a row's TEMs leaves them as they are |
| SimpleLoading.PrefixedTwice | PlutarchParallelLives/src/main/java/daintiness/io/input/SimpleLoader.java:92 | putting two lists of TEMs in front one after the other is putting their concatenation in front |
| SimpleLoading.RowTEMs | PlutarchParallelLives/src/main/java/daintiness/io/input/SimpleLoader.java:71-94 | the row's TEMs exist exactly when every filled column has a beat (timeLine.get raises otherwise), and each belongs to the entity and to a beat of the timeline |
| SimpleLoading.FilledColumns | PlutarchParallelLives/src/main/java/daintiness/io/input/SimpleLoader.java:71-73 | the filled columns from i on, strictly increasing, and every filled column is among them |
| SimpleLoading.PreviousShift | PlutarchParallelLives/src/main/java/daintiness/io/input/SimpleLoader.java:87-90 | past the first filled column, the value a change is taken against is the one the rest of the row starts from |
| SimpleLoading.FilledColumnStep | PlutarchParallelLives/src/main/java/daintiness/io/input/SimpleLoader.java:86-92 | a filled column puts its own TEM in front of those of the rest of the row |
| SimpleLoading.RowTEMsColumns | PlutarchParallelLives/src/main/java/daintiness/io/input/SimpleLoader.java:64-96 | one TEM per filled column in column order, at the column's beat, with the raw value and, except at column 0, the change since the previous filled column other than column 0 (0 before any) |
| SimpleLoading.ParseMeasurements | PlutarchParallelLives/src/main/java/daintiness/io/input/SimpleLoader.java:64-96 | the loop over the row's values builds exactly the row's TEMs, or stops where a filled column has no beat |
| SimpleLoading.LineResult | PlutarchParallelLives/src/main/java/daintiness/io/input/SimpleLoader.java:50-54 | a loaded line gives the entity its row parser builds, with the line's id, and TEMs of that entity at beats of the timeline |
| SimpleLoading.LoadLine | PlutarchParallelLives/src/main/java/daintiness/io/input/SimpleLoader.java:50-54 | a fresh row parser and parseMeasurements give exactly the line's entity and TEMs, or None where the line raises |
| SimpleLoading.RowsOfEntities | PlutarchParallelLives/src/main/java/daintiness/io/input/SimpleLoader.java:46-56 | entity k is what data line k parses to |
| SimpleLoading.RowsOfTEMs | PlutarchParallelLives/src/main/java/daintiness/io/input/SimpleLoader.java:46-56 | every loaded TEM belongs to a loaded entity and to a beat of the timeline |
| SimpleLoading.RowsOfStep | PlutarchParallelLives/src/main/java/daintiness/io/input/SimpleLoader.java:46-56 | one more data line appends its entity and its TEMs, or fails the load |
| SimpleLoading.RowsOfStaysNone | PlutarchParallelLives/src/main/java/daintiness/io/input/SimpleLoader.java:46-56 | once a line has failed, the whole load fails |
| SimpleLoading.RowsOf | PlutarchParallelLives/src/main/java/daintiness/io/input/SimpleLoader.java:46-56 | the entities and TEMs of the data lines in line order, None where a line raises (SimpleLoading.RowsOfEntities, SimpleLoading.RowsOfTEMs) |
| SimpleLoading.LoadOf | PlutarchParallelLives/src/main/java/daintiness/io/input/SimpleLoader.java:39-61 | the header's timeline and the data lines' rows (SimpleLoading.LoadOfMeaning) |
| SimpleLoading.LoadOfMeaning | PlutarchParallelLives/src/main/java/daintiness/io/input/SimpleLoader.java:39-61 | the load gives the header's timeline, one entity per data line numbered from 0, and TEMs that all belong to a loaded entity and a beat of the timeline; an encoded entity is read by the corrected parseEntity reading (SimpleRows.EntityInfoOf), not as written at SimpleRowParser.java:48-51 |
| SimpleLoading.LoadExportedEntities | PlutarchParallelLives/src/main/java/daintiness/io/input/SimpleLoader.java:39-61 | a file whose data lines start with exported entities loads those entities again, renumbered by line, with their names, births, deaths and alive flags, under the corrected parseEntity reading (SimpleRows.EntityInfoOf); as written, a name holding a comma does not read back |
| SimpleLoading.RowsOfAllParse | PlutarchParallelLives/src/main/java/daintiness/io/input/SimpleLoader.java:46-56 | when every data line parses on its own, the whole row loop succeeds (the converse of RowsOfStaysNone) |
| ExportRoundTrip.EntityLineIsBody | PlutarchParallelLives/src/main/java/daintiness/data/DataHandler.java:150-168 | an exported entity line is its info, its cells and an empty last field joined by tabs, followed by the newline |
| ExportRoundTrip.MeasurementsTerminated | PlutarchParallelLives/src/main/java/daintiness/data/DataHandler.java:144-170 | the measurement part of the export is the entity lines in population order, each ended by a newline |
| ExportRoundTrip.EntityBodiesAt | PlutarchParallelLives/src/main/java/daintiness/data/DataHandler.java:145-169 | line i of the measurement part belongs to the population's entity i |
| ExportRoundTrip.EntityPartsSafe | PlutarchParallelLives/src/main/java/daintiness/data/DataHandler.java:150-166 | with names and formatted values free of tabs and line terminators, so is every field of an entity line |
| ExportRoundTrip.EntityBodyFields | PlutarchParallelLives/src/main/java/daintiness/io/input/CsvReader.java:34-36 | an exported entity line holds no line terminator, and split at its tabs starts with the entity's info and has at most one further field per beat |
| ExportRoundTrip.HeaderBodySafe | PlutarchParallelLives/src/main/java/daintiness/data/DataHandler.java:113-131 | with labels free of tabs and line terminators, the header line holds no line terminator |
| ExportRoundTrip.HeaderBodyFields | PlutarchParallelLives/src/main/java/daintiness/io/input/CsvReader.java:34-36 | the header line split at its tabs is the leading field then the beat labels, when the last label is not empty |
| ExportRoundTrip.ExportTextTerminated | PlutarchParallelLives/src/main/java/daintiness/data/DataHandler.java:113-116 | the saved text is the header line and the entity lines, each ended by a newline, when the timeline has a beat |
| ExportRoundTrip.ExportTextLines | PlutarchParallelLives/src/main/java/daintiness/io/input/CsvReader.java:34-36 | read by CsvReader, the saved text is exactly the header line and one line per entity |
| ExportRoundTrip.ExportedLines | PlutarchParallelLives/src/main/java/daintiness/io/input/CsvReader.java:34-36 | the saved text cut into lines and fields: the header's fields are the leading field and the labels, and line i + 1 starts with entity i's info with at most one value per beat |
| ExportRoundTrip.EntityLinesFields | PlutarchParallelLives/src/main/java/daintiness/io/input/CsvReader.java:34-36 | every line read from the entity bodies starts with its entity's info and has at most one value per beat |
| ExportRoundTrip.ReloadOfLines | PlutarchParallelLives/src/main/java/daintiness/io/input/SimpleLoader.java:39-61 | lines shaped like an export load when every label parses as a date: beat j is numbered j with label j, and entity i is the encoded entity renumbered as i |
| ExportRoundTrip.HeaderReload | PlutarchParallelLives/src/main/java/daintiness/io/input/SimpleLoader.java:99-107 | the exported header read by parseTimeLine gives one beat per label, beat j numbered j with label j and its parsed date, when every label parses |
| ExportRoundTrip.RowReload | PlutarchParallelLives/src/main/java/daintiness/io/input/SimpleLoader.java:50-54 | a data line starting with an encoded entity and holding at most one value per beat is read without an exception |
| ExportRoundTrip.RowsReload | PlutarchParallelLives/src/main/java/daintiness/io/input/SimpleLoader.java:46-56 | every data line of an exported text is read without an exception, so the whole row loop succeeds |
| ExportRoundTrip.ExportReloads | PlutarchParallelLives/src/main/java/daintiness/data/DataHandler.java:112-116 | the text getTimeEntityMeasurementAsString writes, read by CsvReader and loaded by SimpleLoader, gives back the timeline (beat j numbered j, with the saved label of beat j and its parsed date) and the population (entity i with the saved name, birth, death and alive flag, renumbered as i), under the corrected parseEntity reading (see Findings) |
| ExportRoundTrip.ExportThenLoad | PlutarchParallelLives/src/test/java/daintiness/io/output/TEMExporterTest.java:31-48 | saving a data handler and loading the saved text into a new handler succeeds, with the same number of beats and entities, each beat's saved label and each entity's name, birth, death and alive flag |
| SimpleLoading.Load | PlutarchParallelLives/src/main/java/daintiness/io/input/SimpleLoader.java:39-61 | succeeds exactly when the lines load, and returns a valid data handler initialised with the loaded timeline, population and TEMs, encoded entities read by the corrected parseEntity reading (SimpleRows.EntityInfoOf) |
| MainControl.File.constructor | PlutarchParallelLives/src/main/java/daintiness/maincontroller/MainController.java:27 | a file keeps its path; files are compared by reference |
| MainControl.Requested | PlutarchParallelLives/src/main/java/daintiness/maincontroller/MainController.java:170-184 | after getPatterns the reload flag is down and the kind is remembered; the cached list is replaced by the manager's exactly when it was empty, a new file was loaded or another kind is asked for |
| MainControl.RepeatedRequestIsCached | PlutarchParallelLives/src/main/java/daintiness/maincontroller/MainController.java:171 | asking twice for the same kind returns the cached list the second time, whatever the manager would give |
| MainControl.NewFileRecomputes | PlutarchParallelLives/src/main/java/daintiness/maincontroller/MainController.java:34-36 | after another file is loaded the next request recomputes |
| MainControl.SameFileKeepsCache | PlutarchParallelLives/src/main/java/daintiness/maincontroller/MainController.java:34-36 | reloading the selected file keeps the cache for the kind last asked for |
| MainControl.OtherKindRecomputes | PlutarchParallelLives/src/main/java/daintiness/maincontroller/MainController.java:171 | a request for another kind recomputes |
| MainControl.GroupWithId | PlutarchParallelLives/src/main/java/daintiness/maincontroller/MainController.java:195-206 | None exactly when no group has the id; otherwise the first group that has it |
| MainControl.PhaseWithId | PlutarchParallelLives/src/main/java/daintiness/maincontroller/MainController.java:209-220 | None exactly when no phase has the id; otherwise the first phase that has it |
| MainControl.TotalAppend | PlutarchParallelLives/src/main/java/daintiness/maincontroller/MainController.java:254-257 | the sum of measurement values over a concatenation is the sum of the two sums |
| MainControl.MeasurementsAtAppend | PlutarchParallelLives/src/main/java/daintiness/maincontroller/MainController.java:247-259 | the measurements over two runs of beats are those of the first run followed by those of the second |
| MainControl.BreakdownAdditive | PlutarchParallelLives/src/main/java/daintiness/maincontroller/MainController.java:243-262 | an entity's entry over two runs of beats sums the values and the counts of the two runs |
| MainControl.Breakdown | PlutarchParallelLives/src/main/java/daintiness/maincontroller/MainController.java:236-264 | fails (getBeat raises) exactly when some member name names an entity and some phase beat id lies outside the timeline; otherwise at most one entry per member name, each for a name that names an entity of the population |
| MainControl.BreakdownStep | PlutarchParallelLives/src/main/java/daintiness/maincontroller/MainController.java:236-264 | one more member name appends its entry when it names an entity and every beat id lies in the timeline, fails when it names an entity and some id does not, and changes nothing when it names none |
| MainControl.BreakdownFailsFrom | PlutarchParallelLives/src/main/java/daintiness/maincontroller/MainController.java:243-248 | once getBeat has raised for an earlier member, the whole breakdown fails |
| MainControl.BreakdownOfResolvedNames | PlutarchParallelLives/src/main/java/daintiness/maincontroller/MainController.java:236-264 | when every member name names an entity, the breakdown succeeds exactly when there are no members or every beat id lies in the timeline, and then holds one entry per member, in member order, for the first entity of that name |
| MainControl.SumOf | PlutarchParallelLives/src/main/java/daintiness/maincontroller/MainController.java:254-257 | the loop over one TEM's measurements gives their sum and their number |
| MainControl.EntityTotal | PlutarchParallelLives/src/main/java/daintiness/maincontroller/MainController.java:244-259 | succeeds exactly when every phase beat id lies in the timeline (getBeat raises otherwise), and then gives the sum and number of all the entity's measurements there, missing beats and TEMs adding nothing |
| MainControl.CellBreakdown | PlutarchParallelLives/src/main/java/daintiness/maincontroller/MainController.java:236-264 | the member loop computes exactly the breakdown of the members over the beats, failing where getBeat raises |
| MainControl.MainController.constructor | PlutarchParallelLives/src/main/java/daintiness/maincontroller/MainController.java:26-29 | nothing loaded or clustered, an empty pattern cache, and a fresh File("") selected |
| MainControl.MainController.Load | PlutarchParallelLives/src/main/java/daintiness/maincontroller/MainController.java:33-46 | the reload flag is raised when the file is another object than the selected one, never lowered; the file becomes the selected one and the loaded data the controller's |
| MainControl.MainController.FitData | PlutarchParallelLives/src/main/java/daintiness/maincontroller/MainController.java:146-151 | the clustering handler becomes the one built over the controller's data; nothing else changes |
| MainControl.MainController.GetChartData | PlutarchParallelLives/src/main/java/daintiness/maincontroller/MainController.java:133-138 | an empty list before any clustering, the handler's chart rows after |
| MainControl.MainController.GetPatterns | PlutarchParallelLives/src/main/java/daintiness/maincontroller/MainController.java:170-184 | the cache moves as Requested says, and the returned list is the cached one |
| MainControl.MainController.GetEntityGroupById | PlutarchParallelLives/src/main/java/daintiness/maincontroller/MainController.java:195-206 | None before any clustering; otherwise the first group with the id, or None |
| MainControl.MainController.GetPhaseById | PlutarchParallelLives/src/main/java/daintiness/maincontroller/MainController.java:209-220 | None before any clustering; otherwise the first phase with the id, or None |
| MainControl.MainController.GetCellBreakdown | PlutarchParallelLives/src/main/java/daintiness/maincontroller/MainController.java:223-267 | an empty breakdown when the group, the phase or the data is missing; otherwise the breakdown of the group's member names over the phase's beats, which fails (getBeat raises) when a member is found and a beat id lies outside the timeline |
| Projects.Wrap32 | PlutarchParallelLives/src/main/java/daintiness/api/ProjectStore.java:101 | a Java int product: within the int range and equal to the exact value modulo 2^32 |
| Projects.TimeoutMillis | PlutarchParallelLives/src/main/java/daintiness/api/ProjectStore.java:101 | minutes * 60 as a wrapping int product, then widened and multiplied by 1000 (Projects.TimeoutMillisExact, Projects.TimeoutMillisWraps) |
| Projects.TimeoutMillisExact | PlutarchParallelLives/src/main/java/daintiness/api/ProjectStore.java:101 | without int overflow the timeout is minutes × 60000 milliseconds |
| Projects.TimeoutMillisWraps | PlutarchParallelLives/src/main/java/daintiness/api/ProjectStore.java:101 | 35791395 minutes overflow the int product into a negative timeout |
| Projects.EffectiveMax | PlutarchParallelLives/src/main/java/daintiness/api/ProjectStore.java:58 | the configured bound when positive, Integer.MAX_VALUE otherwise; always at least 1 |
| Projects.Live | PlutarchParallelLives/src/main/java/daintiness/api/ProjectStore.java:99-116 | exactly the sessions not idle for longer than the timeout remain, each unchanged |
| Projects.ProjectSession.IsExpired | PlutarchParallelLives/src/main/java/daintiness/api/ProjectStore.java:37-39 | idle for strictly longer than the timeout (Projects.Live, Projects.TouchedSurvives) |
| Projects.LiveCount | PlutarchParallelLives/src/main/java/daintiness/api/ProjectStore.java:99-122 | cleanup lowers the count by exactly the number of expired sessions |
| Projects.TouchedSurvives | PlutarchParallelLives/src/main/java/daintiness/api/ProjectStore.java:33-39 | a session touched no longer than the timeout ago survives cleanup with its controller |
| Projects.CleanupIdempotent | PlutarchParallelLives/src/main/java/daintiness/api/ProjectStore.java:99-116 | a second cleanup at the same time removes nothing |
| Projects.DeleteTwice | PlutarchParallelLives/src/main/java/daintiness/api/ProjectStore.java:84-93 | after a delete the id is gone, and deleting it again changes nothing |
| Projects.DeleteCount | PlutarchParallelLives/src/main/java/daintiness/api/ProjectStore.java:84-97 | deleting a stored id lowers the count by one and keeps every other session |
| Projects.ProjectStore.constructor | PlutarchParallelLives/src/main/java/daintiness/api/ProjectStore.java:46-50 | no sessions, with the configured timeout and bound |
| Projects.ProjectStore.CreateProject | PlutarchParallelLives/src/main/java/daintiness/api/ProjectStore.java:57-70 | a full store is unchanged and raises; otherwise a fresh controller is stored under the new id with the current time, and the count grows by one |
| Projects.ProjectStore.Get | PlutarchParallelLives/src/main/java/daintiness/api/ProjectStore.java:72-82 | empty for a null, empty or unknown id, the store unchanged; otherwise that session's controller, its access time set to now and nothing else changed |
| Projects.ProjectStore.Delete | PlutarchParallelLives/src/main/java/daintiness/api/ProjectStore.java:84-93 | true exactly when the id was stored; only that session is removed |
| Projects.ProjectStore.CleanupExpiredSessions | PlutarchParallelLives/src/main/java/daintiness/api/ProjectStore.java:99-116 | the sessions become exactly the live ones under the configured timeout |
| Projects.ProjectStore.ForceCleanup | PlutarchParallelLives/src/main/java/daintiness/api/ProjectStore.java:118-122 | the cleanup, returning the number of expired sessions it removed |
| Text.Pieces | PlutarchParallelLives/src/main/java/daintiness/io/input/SimpleRowParser.java:44 | the pieces between separators, at least one, none holding the separator |
| Text.DropTrailingEmpty | PlutarchParallelLives/src/main/java/daintiness/io/FileHandler.java:174 | a prefix of the pieces whose last piece is not empty, only empty pieces dropped (String.split drops trailing empty strings) |
| Text.Split | PlutarchParallelLives/src/main/java/daintiness/io/FileHandler.java:152 | String.split on a one-character separator: no piece holds the separator |
| Text.SplitOfJoin | PlutarchParallelLives/src/main/java/daintiness/io/FileHandler.java:152 | splitting a join of separator-free parts whose last part is not empty gives the parts back |
| Text.ParseIntOfIntToString | PlutarchParallelLives/src/main/java/daintiness/io/input/SimpleRowParser.java:52-53 | Integer.parseInt reads back every integer "%d" writes |
| Text.ParseInt | PlutarchParallelLives/src/main/java/daintiness/io/FileHandler.java:134 | Integer.parseInt: an optional sign and at least one ASCII digit, None otherwise (Text.ParseIntOfDigits, Text.ParseIntOfIntToString) |
| Text.ParseIntOfDigits | PlutarchParallelLives/src/main/java/daintiness/io/FileHandler.java:134 | Integer.parseInt of a digit string is the value of its digits |
| Text.IntToStringPlain | PlutarchParallelLives/src/main/java/daintiness/data/DataHandler.java:150 | a number written by "%d" holds no separator other than digits and the minus sign |
| Text.ToUpper | PlutarchParallelLives/src/main/java/daintiness/io/FileHandler.java:188 | upper-casing a file extension keeps its length; ASCII letters only |
| Lists.RemoveAt | PlutarchParallelLives/src/main/java/daintiness/clustering/AgglomerativePhaseExtractor.java:100 | List.remove(int): the list loses the element at i and the later ones shift down by one |
| Lists.SortedKeysMeaning | PlutarchParallelLives/src/main/java/daintiness/clustering/ClusteringHandler.java:168 | the keys iterated are exactly the map's keys, in strictly ascending order |
| Lists.SortedKeysLength | PlutarchParallelLives/src/main/java/daintiness/clustering/ClusteringHandler.java:168 | one key per element of the key set |
| Lists.AscendingKeys | PlutarchParallelLives/src/main/java/daintiness/clustering/ClusteringHandler.java:168 | the loop taking the smallest remaining key builds exactly the ascending key sequence |

## Left out

- File and stream I/O: `CsvReader` is modelled as the file's text cut into lines at BufferedReader's line terminators and into fields by Java `split` on the tab (`Files.ReadLines`); reading the file and decoding its characters are not modelled. `FileHandler.writeDataToFile`, `exportProject` and its `mkdirs`, the folder discovery and `getPLDFile` of `SchemaEvoLoader`, and `PatternManager.printPatterns` and its `System.nanoTime` timing are not part of this model.
- The HTTP layer (`DaintinessRestAPI`, `GlobalExceptionHandler`) is not part of this model. It can pass a null entity profile to `EntityGroupExtractor`; the model's extractor always has a profile.
- Floating point: values are exact `real`s. `Math.sqrt` is a parameter `root`, used only inside the combined distance. NaN and Infinity are written out only in `Colouring`, where Java's division by zero and `(int)` cast decide the bucket. Elsewhere a division by zero cannot happen under the stated preconditions.
- `Double.MAX_VALUE` as the start of both argmin scans is modelled as "no candidate yet". For finite distances below `Double.MAX_VALUE` this is the same.
- `NumberFormat.getInstance(Locale.US)`, `Double.parseDouble`, `LocalDateTime.parse` and the number parser of `SimpleLoader` are function parameters. The GPM round trip holds for every cell value the number format writes as non-empty text without a GPM separator that the parser reads; the value read back is what the parser makes of what the format wrote, so rounding by the format is covered (`GpmRoundTrip.GpmFileRoundTrip`). A value the format writes with a separator does not read back: `NumberFormat` groups thousands ("1,234"), which breaks the cell list (see Findings). Member names must hold no ',', brace, tab or line terminator (a ':' is fine), the last name must not be empty and a name that stands alone must not be blank (`GpmRoundTrip.GoodNames`); the source's own test data meets this. A group with no member is written as a line of two fields, which the reader rejects, so the round trip asks for at least one name.
- Java `int` overflow is modelled only in `Projects.TimeoutMillis`, where `minutes * 60` is an `int` product. Elsewhere counters and ids are unbounded.
- Exceptions become `None` or a `false` result. `null` becomes `Option`. Methods that dereference a value the source never checks carry that as a `requires` (for example `SchemaEvo`'s `MapToMetrics` needs the table to be loaded).
- HashMap and HashSet iteration order is taken as ascending keys where the model computes it (`Lists.SortedKeys`, `Lists.AscendingKeys`). Where the order is an input (`SchemaEvo`'s table order), it is a parameter that must list the keys.
- `ConcurrentHashMap`, `volatile`, `@Scheduled`, `UUID.randomUUID` and `System.currentTimeMillis`: the store is one sequential map, and the fresh id and the clock reading are arguments. `ProjectSession` is a value in the map, so `touch` replaces the entry. `Projects.ProjectStore.CreateProject` does not assume the fresh id is unused; it states the count grows by one when it is.
- `Projects.ProjectStore.GetActiveProjectCount` is `|projects|` itself and carries no contract of its own; the count changes are stated by `CreateProject`, `DeleteCount` and `ForceCleanup`.
- Logging and `System.out` output are not modelled.
- Object identity and aliasing: measurements are values. `GroupPhaseMeasurement.addTEM` in the source stores the TEM's own measurement objects in the cell, so its later `addToValue` calls change the data store as well. The model keeps the store unchanged and does not capture that aliasing. The `==` comparison of strings in `PatternData.getCellByEntityAndPhaseId` is not part of this model. `LadderAlgo`'s identity-based deduplication is modelled as deduplication by value. The two agree when no two distinct cell objects in a run name the same entity and phase. Entity names are unique within a dataset, so only the cells added again are repeats.
- JavaFX `ObservableList` and its listeners are plain sequences.
- Interfaces, factories and plain data holders become datatypes or are folded into their users.
- The second constructors `Phase(int, List<Integer>)` and `EntityGroup(int, List<String>, LifeDetails)` are not used by the modelled code and are left out.
- Several source loops are split into helper methods so that each proof stays small. Each helper is one loop body or one inner loop of the method named in its row: `MergeRounds`, `MergeClosestPair`, `ClosestPair`, `ScanRow`, `ScanPair`, `PairDistanceAt`, `AddSingletonPhase`, `AddSingletonGroup`, `EntityValues`, `AddGroupTems`, `AddMemberTems`, `AddIfInPhase`, `NextCell`, `PhaseStep`, `GroupRow`, `GroupStep`, `FillBuckets`, `SelectPatterns`, `ScanPhase`, `PhaseRound`, `MeasureBeat`, `MeasureTable`, `NamesPart`, `CellsPart`, `LoadLine`, `SumOf`, `EntityTotal`, `CellBreakdown`.
- `ClusteringHandler`'s constructor and `setDataHandler` are one constructor taking the data handler, which is how the controller always uses them.
- `MainController` delegations with no logic of their own are not modelled: `save`, `exportProject`, `importProject`, `sortChartData`, the getters, `getNumberOf*`, `printPatterns` and `generateChartDataOfType`. The loading inside `load` (file handler, `loadTEM`, rewriting schema-evolution data) is modelled in `SimpleLoading`, `SchemaEvo` and `Files`; the controller receives the loaded data handler as an argument.
- MainControl.MainController.GetPatterns: the pattern manager's result is an argument `computed`, used only when the cache is rebuilt. The source then reads the clustering handler without a null check, so a rebuild requires a clustering.
- `getCellBreakdown` passes each phase beat id to `getBeat`, which reads it as a timeline position; an id outside the timeline raises, and the model's breakdown is then `None`. It keeps `beatCount` as the number of measurements summed, not the number of beats.
- PhaseExtraction.AgglomerativePhaseExtractor.ClusterData requires at least one desired phase: with none, the source reads past the phase list.
- GroupExtraction.EntityGroupExtractor.ClusterData requires at least one desired group, since with none the last group is merged with itself. It also requires a non-empty timeline whenever a merge happens, because with an empty timeline the birth and death distances divide by zero and give NaN.
- SimpleLoading.LoadExportedEntities, ExportRoundTrip.ExportReloads and ExportRoundTrip.ExportThenLoad state that the saved timeline and entities read back. They do not cover the values: reading them back needs the number format and parser, which are parameters.
- ExportRoundTrip.ExportReloads asks for a timeline with at least one beat: with none the timeline line is empty and the header field shares its line with the first entity. It also asks for labels, names and formatted values without a tab or a line terminator, and a non-empty last label (split drops a trailing empty field).
- Text.ParseInt: reads the ASCII digits '0' to '9' only, over unbounded integers; `Integer.parseInt` also accepts the other Unicode decimal digits (`Character.digit`) and throws outside the `int` range. The writers modelled here write ASCII digits only.
- Text.ToUpper: upper-cases ASCII letters only; `String.toUpperCase` also maps other letters. File extensions compared against it are ASCII.

## Findings

| source | as written | input that shows it | evidently intended | confidence | as-written member | corrected member |
|---|---|---|---|---|---|---|
| PlutarchParallelLives/src/main/java/daintiness/io/input/SimpleRowParser.java:48-51 | parseEntity rebuilds a name that holds commas from the LINE's fields `line[i]` and stops one component early (`i < indexCorrector`) | the field `{a,b,0,2,1}` reads as an entity named "a"; `{a,b,c,0,2,1}` followed by the value "5" reads as "a,5" | the name is every component before the last three, joined by commas ("a,b", "a,b,c"), so an entity exported by DataHandler reads back with its own name | not executed | SimpleRows.EntityInfoAsWritten, SimpleRows.AsWrittenDropsLastNamePart, SimpleRows.AsWrittenReadsValueIntoName | SimpleRows.EntityInfoOf, SimpleRows.EntityInfoRoundTrip, SimpleRows.SimpleRowParser.ParseEntity |
| PlutarchParallelLives/src/main/java/daintiness/clustering/ClusteringHandler.java:324-326 | the GPM writer formats cell values with `NumberFormat.getInstance(Locale.US)`, which groups thousands, and the reader (FileHandler.java:147-160) splits the cell list on ',' | a cell value 1234.0 is written "0:1,234"; reading it back cuts "234" out as an entry without a colon and the load fails | a written GPM file loads back, for example with grouping turned off | not executed | GpmRoundTrip.GroupedValueUnreadable | GpmRoundTrip.GpmFileRoundTrip, GpmRoundTrip.GpmFileRoundTripExact |
