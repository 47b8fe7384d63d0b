/** The enumerations of daintiness.utilities.Constants. */
module Kinds {

  datatype FileType = CSV | TSV | SCHEMA_EVO | TEM_GPM

  datatype RowFormatType = NORMAL | MULTI_WORDS | ENTITY_INFO

  datatype SortingType =
    | ACTIVITY_ASCENDING
    | ACTIVITY_DESCENDING
    | BIRTH_ASCENDING
    | BIRTH_DESCENDING
    | LIFE_DURATION_ASCENDING
    | LIFE_DURATION_DESCENDING

  datatype MeasurementType = DELTA_VALUE | RAW_VALUE

  datatype AggregationType =
    | SUM_OF_INSERTIONS
    | SUM_OF_DELETIONS
    | SUM_OF_UPDATES
    | SUM_OF_INSERTIONS_AND_DELETIONS
    | SUM_OF_INSERTIONS_AND_UPDATES
    | SUM_OF_DELETIONS_AND_UPDATES
    | SUM_OF_ALL
    | NO_AGGREGATION

  datatype GPMType = BIRTH | DEATH | ACTIVE | INACTIVE

  datatype TransactionType = INSERTION | DELETION | UPDATE | NOT_SUPPORTED

  datatype PatternType = NO_TYPE | MULTIPLE_BIRTHS | MULTIPLE_UPDATES | MULTIPLE_DEATHS | LADDER | BIRTH_PATTERN

  /** The key under which a cell or a TEM stores one measurement. */
  datatype MeasurementKey = MeasurementKey(measurementType: MeasurementType, aggregationType: AggregationType)
}
