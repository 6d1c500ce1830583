/** The shapes the GraphQL schema declares for lifts (index.js:22-35).
    Only the shapes are modelled: parsing the schema text and validating
    queries against it belong to the query-execution library. */
module Schema {
  import opened Wrappers

  /** `enum LiftStatus { OPEN CLOSED HOLD }`. */
  datatype LiftStatus = OPEN | CLOSED | HOLD

  /** `type Lift`. The non-null fields are plain values; the nullable `status`
      and `night` fields are options, `None` standing for a record whose field
      is `null` or missing. */
  datatype Lift = Lift(
    id: string,
    name: string,
    status: Option<LiftStatus>,
    capacity: int,
    night: Option<bool>,
    elevationGain: int
  )
}
