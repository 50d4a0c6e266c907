/**
 * The dashboard's per-project metrics: the bucket totals `totalRev` and
 * `totalExp`, and `calcTotals`, whose ratios fall back to 0 when their
 * denominator is not positive.
 */
module Metrics {
  import opened Seqs
  import opened Records

  /** `REV_KEYS`, in the source's order. */
  const REV_KEYS: seq<RevenueBucket> := [
    DeliverablesApproved,
    RevenueBucket.AdditionalDeliverables,
    RevenueBucket.LastMinuteReschedule,
    RevenueBucket.Travel,
    RevenueBucket.Other]

  /** `EXP_KEYS`, in the source's order. */
  const EXP_KEYS: seq<ExpenseBucket> := [
    Base,
    ExpenseBucket.AdditionalDeliverables,
    ExpenseBucket.LastMinuteReschedule,
    ExpenseBucket.Travel,
    ExpenseBucket.Other]

  /** Each key list names every bucket of its side exactly once. */
  lemma KeysComplete()
    ensures Distinct(REV_KEYS) && forall k :: k in REV_KEYS
    ensures Distinct(EXP_KEYS) && forall k :: k in EXP_KEYS
  {
    forall k: RevenueBucket
      ensures k in REV_KEYS
    {
      match k
      case DeliverablesApproved => assert REV_KEYS[0] == k;
      case AdditionalDeliverables => assert REV_KEYS[1] == k;
      case LastMinuteReschedule => assert REV_KEYS[2] == k;
      case Travel => assert REV_KEYS[3] == k;
      case Other => assert REV_KEYS[4] == k;
    }
    forall k: ExpenseBucket
      ensures k in EXP_KEYS
    {
      match k
      case Base => assert EXP_KEYS[0] == k;
      case AdditionalDeliverables => assert EXP_KEYS[1] == k;
      case LastMinuteReschedule => assert EXP_KEYS[2] == k;
      case Travel => assert EXP_KEYS[3] == k;
      case Other => assert EXP_KEYS[4] == k;
    }
  }

  function RevenueIn(p: Project): RevenueBucket -> real
  {
    k => p.revenue.Get(k)
  }

  function ExpenseIn(p: Project): ExpenseBucket -> real
  {
    k => p.expenses.Get(k)
  }

  /** `totalRev(p)`: the reduce over `REV_KEYS`, which adds exactly the five revenue buckets. */
  function TotalRev(p: Project): (r: real)
    ensures r == p.revenue.deliverablesApproved + p.revenue.additionalDeliverables
               + p.revenue.lastMinuteReschedule + p.revenue.travel + p.revenue.other
  {
    SumOf(REV_KEYS, RevenueIn(p))
  }

  /** `totalExp(p)`: the reduce over `EXP_KEYS`, which adds exactly the five expense buckets. */
  function TotalExp(p: Project): (r: real)
    ensures r == p.expenses.base + p.expenses.additionalDeliverables
               + p.expenses.lastMinuteReschedule + p.expenses.travel + p.expenses.other
  {
    SumOf(EXP_KEYS, ExpenseIn(p))
  }

  /** `base > 0 ? (m / base) * 100 : 0`: `m` as a percentage of `base`. */
  function Percent(m: real, base: real): (r: real)
    ensures base <= 0.0 ==> r == 0.0
    ensures base > 0.0 ==> r * base == m * 100.0
  {
    if base > 0.0 then (m / base) * 100.0 else 0.0
  }

  /** `n > 0 ? x / n : 0`: `x` per unit of `n`. */
  function PerUnit(x: real, n: real): (r: real)
    ensures n <= 0.0 ==> r == 0.0
    ensures n > 0.0 ==> r * n == x
  {
    if n > 0.0 then x / n else 0.0
  }

  /** The record `calcTotals` returns. */
  datatype ProjectTotals = ProjectTotals(
    totalExpenses: real,
    totalRevenue: real,
    margin: real,
    marginPct: real,
    revenuePerImage: real,
    expensePerImage: real)

  /** `calcTotals(p)`. */
  function CalcTotals(p: Project): (t: ProjectTotals)
    ensures t.totalRevenue == TotalRev(p) && t.totalExpenses == TotalExp(p)
    ensures t.margin == t.totalRevenue - t.totalExpenses
    ensures t.totalRevenue <= 0.0 ==> t.marginPct == 0.0
    ensures t.totalRevenue > 0.0 ==> t.marginPct * t.totalRevenue == t.margin * 100.0
    ensures p.numImages <= 0.0 ==> t.revenuePerImage == 0.0 && t.expensePerImage == 0.0
    ensures p.numImages > 0.0 ==>
      t.revenuePerImage * p.numImages == t.totalRevenue && t.expensePerImage * p.numImages == t.totalExpenses
  {
    var te := TotalExp(p);
    var tr := TotalRev(p);
    var m := tr - te;
    ProjectTotals(te, tr, m, Percent(m, tr), PerUnit(tr, p.numImages), PerUnit(te, p.numImages))
  }

  /** A margin over a positive revenue, with expenses between 0 and the revenue, is 0 to 100 percent. */
  lemma PercentRange(m: real, base: real)
    requires base > 0.0 && 0.0 <= m <= base
    ensures 0.0 <= Percent(m, base) <= 100.0
  {
    var r := Percent(m, base);
    assert r * base == m * 100.0;
  }

  /** With revenue positive and expenses between 0 and the revenue, the margin is 0 to 100 percent. */
  lemma MarginPctRange(p: Project)
    requires TotalRev(p) > 0.0 && 0.0 <= TotalExp(p) <= TotalRev(p)
    ensures 0.0 <= CalcTotals(p).marginPct <= 100.0
  {
    PercentRange(TotalRev(p) - TotalExp(p), TotalRev(p));
  }

  /** A project's revenue, as a value to sum over projects: `calcTotals(p).totalRevenue` is `totalRev(p)`. */
  function ProjectRevenue(p: Project): real
  {
    TotalRev(p)
  }

  /** A project's expenses, as a value to sum over projects: `calcTotals(p).totalExpenses` is `totalExp(p)`. */
  function ProjectExpenses(p: Project): real
  {
    TotalExp(p)
  }

  function ProjectImages(p: Project): real
  {
    p.numImages
  }
}
