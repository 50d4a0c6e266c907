/**
 * The reconciled per-project record shared by the sheet reconciler and the
 * dashboard: identity fields, an image count, a month key and the two
 * five-bucket money tables.
 */
module Records {

  /** The keys of a project's `revenue` object. */
  datatype RevenueBucket =
    | DeliverablesApproved
    | AdditionalDeliverables
    | LastMinuteReschedule
    | Travel
    | Other

  /** The keys of a project's `expenses` object. */
  datatype ExpenseBucket =
    | Base
    | AdditionalDeliverables
    | LastMinuteReschedule
    | Travel
    | Other

  /** A project's `revenue` object: one accumulated amount per revenue bucket. */
  datatype RevenueTotals = RevenueTotals(
    deliverablesApproved: real,
    additionalDeliverables: real,
    lastMinuteReschedule: real,
    travel: real,
    other: real)
  {
    function Get(k: RevenueBucket): real
    {
      match k
      case DeliverablesApproved => deliverablesApproved
      case AdditionalDeliverables => additionalDeliverables
      case LastMinuteReschedule => lastMinuteReschedule
      case Travel => travel
      case Other => other
    }

    /** `revenue[k] += amount`: bucket `k` grows by `amount`, every other bucket is unchanged. */
    function Add(k: RevenueBucket, amount: real): (r: RevenueTotals)
      ensures r.Get(k) == Get(k) + amount
      ensures forall k' :: k' != k ==> r.Get(k') == Get(k')
    {
      match k
      case DeliverablesApproved => this.(deliverablesApproved := deliverablesApproved + amount)
      case AdditionalDeliverables => this.(additionalDeliverables := additionalDeliverables + amount)
      case LastMinuteReschedule => this.(lastMinuteReschedule := lastMinuteReschedule + amount)
      case Travel => this.(travel := travel + amount)
      case Other => this.(other := other + amount)
    }
  }

  /** A project's `expenses` object: one accumulated amount per expense bucket. */
  datatype ExpenseTotals = ExpenseTotals(
    base: real,
    additionalDeliverables: real,
    lastMinuteReschedule: real,
    travel: real,
    other: real)
  {
    function Get(k: ExpenseBucket): real
    {
      match k
      case Base => base
      case AdditionalDeliverables => additionalDeliverables
      case LastMinuteReschedule => lastMinuteReschedule
      case Travel => travel
      case Other => other
    }

    /** `expenses[k] += amount`: bucket `k` grows by `amount`, every other bucket is unchanged. */
    function Add(k: ExpenseBucket, amount: real): (r: ExpenseTotals)
      ensures r.Get(k) == Get(k) + amount
      ensures forall k' :: k' != k ==> r.Get(k') == Get(k')
    {
      match k
      case Base => this.(base := base + amount)
      case AdditionalDeliverables => this.(additionalDeliverables := additionalDeliverables + amount)
      case LastMinuteReschedule => this.(lastMinuteReschedule := lastMinuteReschedule + amount)
      case Travel => this.(travel := travel + amount)
      case Other => this.(other := other + amount)
    }
  }

  const ZERO_REVENUE := RevenueTotals(0.0, 0.0, 0.0, 0.0, 0.0)
  const ZERO_EXPENSES := ExpenseTotals(0.0, 0.0, 0.0, 0.0, 0.0)

  /** One reconciled project. `month` is a `YYYY-MM` key or "Unknown". */
  datatype Project = Project(
    id: string,
    partner: string,
    product: string,
    country: string,
    numImages: real,
    month: string,
    revenue: RevenueTotals,
    expenses: ExpenseTotals)
}
