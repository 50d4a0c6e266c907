/**
 * The data behind the three monthly partner charts (revenue, travel
 * expenses, margin): a month axis built from the projects' month keys, and
 * one value per month and chart series, the series being the named
 * partners and "Other".
 */
module Charts {
  import opened Seqs
  import opened Records
  import opened Text
  import opened Metrics
  import opened Partners
  import opened Classes

  // ---------------------------------------------------------------------------
  // The month axis
  // ---------------------------------------------------------------------------

  /** Strictly ascending in code-unit order. */
  predicate Increasing(s: seq<string>)
  {
    forall i, j :: 0 <= i < j < |s| ==> StrLess(s[i], s[j])
  }

  lemma IncreasingCons(h: string, t: seq<string>)
    requires Increasing(t) && (t == [] || StrLess(h, t[0]))
    ensures Increasing([h] + t)
  {
    var s := [h] + t;
    forall i, j | 0 <= i < j < |s|
      ensures StrLess(s[i], s[j])
    {
      if i == 0 && j > 1 {
        StrLessTransitive(h, t[0], t[j - 1]);
      }
    }
  }

  /** Inserting a new string into an ascending list at its place. */
  function InsertString(x: string, s: seq<string>): (r: seq<string>)
    requires Increasing(s) && x !in s
    ensures Increasing(r)
    ensures multiset(r) == multiset(s) + multiset{x}
    ensures |r| == |s| + 1 && (r[0] == x || (s != [] && r[0] == s[0]))
  {
    if s == [] then
      [x]
    else if StrLess(x, s[0]) then
      IncreasingCons(x, s);
      [x] + s
    else
      StrLessTotal(x, s[0]);
      var t := InsertString(x, s[1..]);
      IncreasingCons(s[0], t);
      assert s == [s[0]] + s[1..];
      [s[0]] + t
  }

  /** `.sort()` on strings that are all different: ascending in code-unit order. */
  function SortStrings(s: seq<string>): (r: seq<string>)
    requires Distinct(s)
    ensures Increasing(r)
    ensures multiset(r) == multiset(s)
  {
    if s == [] then
      []
    else
      DistinctCons(s[0], s[1..]);
      assert s == [s[0]] + s[1..];
      var t := SortStrings(s[1..]);
      assert s[0] !in multiset(t);
      InsertString(s[0], t)
  }

  function MonthOf(p: Project): string
  {
    p.month
  }

  function NonEmpty(m: string): bool
  {
    m != []
  }

  /**
   * `[...new Set(projects.map(p => p.month))].filter(Boolean).sort()`: the
   * non-empty months of the projects, each once, ascending.
   */
  function MonthAxis(projects: seq<Project>): (r: seq<string>)
    ensures Increasing(r)
    ensures forall i, j :: 0 <= i < j < |r| ==> r[i] != r[j]
    ensures forall m :: m in r <==> m != [] && exists i :: 0 <= i < |projects| && projects[i].month == m
  {
    var months := Select(Dedup(MapSeq(projects, MonthOf)), NonEmpty);
    SelectDistinct(Dedup(MapSeq(projects, MonthOf)), NonEmpty);
    var r := SortStrings(months);
    forall i, j | 0 <= i < j < |r|
      ensures r[i] != r[j]
    {
      StrLessIrreflexive(r[i]);
    }
    PermutedMembers(r, months);
    forall m
      ensures m in MapSeq(projects, MonthOf) <==> exists i :: 0 <= i < |projects| && projects[i].month == m
    {
      if m in MapSeq(projects, MonthOf) {
        var i :| 0 <= i < |projects| && MapSeq(projects, MonthOf)[i] == m;
        assert projects[i].month == m;
      }
    }
    r
  }

  // ---------------------------------------------------------------------------
  // The cells
  // ---------------------------------------------------------------------------

  /** The three monthly partner charts and the figure each stacks per project. */
  datatype ChartMetric = RevenueChart | TravelChart | MarginChart

  /** `totalRev(p)`, `p.expenses.travel` and `totalRev(p) - totalExp(p)`. */
  function Figure(metric: ChartMetric): Project -> real
  {
    match metric
    case RevenueChart => TotalRev
    case TravelChart => (p: Project) => p.expenses.travel
    case MarginChart => (p: Project) => TotalRev(p) - TotalExp(p)
  }

  function PartnerClass(p: Project): string
  {
    PartnerGroup(p.partner)
  }

  function InMonth(m: string): Project -> bool
  {
    (p: Project) => p.month == m
  }

  /** `p.month === m && partnerGroup(p.partner) === pt`. */
  function InCell(m: string, pt: string): Project -> bool
  {
    (p: Project) => p.month == m && PartnerClass(p) == pt
  }

  /** `row[pt]`: the figure summed over the projects of month `m` whose partner classifies as `pt`. */
  function Cell(projects: seq<Project>, metric: ChartMetric, m: string, pt: string): real
  {
    SumOf(Select(projects, InCell(m, pt)), Figure(metric))
  }

  function CellOf(projects: seq<Project>, metric: ChartMetric, m: string): string -> real
  {
    pt => Cell(projects, metric, m, pt)
  }

  /** One row of a chart: the month and one value per series of `CHART_PARTNERS`. */
  datatype ChartRow = ChartRow(month: string, values: seq<real>)

  /** `months.map(m => ...)`: one row per month of the axis. */
  function ChartData(projects: seq<Project>, metric: ChartMetric): (r: seq<ChartRow>)
    ensures |r| == |MonthAxis(projects)|
    ensures forall i :: 0 <= i < |r| ==> r[i].month == MonthAxis(projects)[i]
    ensures forall i :: 0 <= i < |r| ==> |r[i].values| == |CHART_PARTNERS|
    ensures forall i, j :: 0 <= i < |r| && 0 <= j < |r[i].values| ==>
      r[i].values[j] == Cell(projects, metric, r[i].month, CHART_PARTNERS[j])
  {
    var months := MonthAxis(projects);
    seq(|months|, i requires 0 <= i < |months| => ChartRow(months[i], MapSeq(CHART_PARTNERS, CellOf(projects, metric, months[i]))))
  }

  /** Selecting twice is selecting by both conditions. */
  lemma {:induction false} SelectSelect<T(!new)>(s: seq<T>, a: T -> bool, b: T -> bool, c: T -> bool)
    requires forall x :: c(x) == (a(x) && b(x))
    ensures Select(Select(s, a), b) == Select(s, c)
  {
    if s != [] {
      SelectSelect(s[1..], a, b, c);
      assert s == [s[0]] + s[1..];
      SelectConcat([s[0]], s[1..], a);
      SelectConcat([s[0]], s[1..], c);
      SelectConcat(Select([s[0]], a), Select(s[1..], a), b);
    }
  }

  /** The series of one row add up to the figure summed over all projects of that month. */
  lemma RowTotal(projects: seq<Project>, metric: ChartMetric, m: string)
    ensures SumOf(CHART_PARTNERS, CellOf(projects, metric, m)) == SumOf(Select(projects, InMonth(m)), Figure(metric))
  {
    var month := Select(projects, InMonth(m));
    var f := Figure(metric);
    forall j | 0 <= j < |CHART_PARTNERS|
      ensures CellOf(projects, metric, m)(CHART_PARTNERS[j]) == ClassSum(month, PartnerClass, f)(CHART_PARTNERS[j])
    {
      SelectSelect(projects, InMonth(m), InClass(PartnerClass, CHART_PARTNERS[j]), InCell(m, CHART_PARTNERS[j]));
    }
    SumOfCorrespond(CHART_PARTNERS, CHART_PARTNERS, CellOf(projects, metric, m), ClassSum(month, PartnerClass, f));
    ChartPartnersDistinct();
    SumOfClasses(month, PartnerClass, CHART_PARTNERS, f);
  }

  function Value(v: real): real
  {
    v
  }

  /** The values of each row of a chart add up to the figure summed over the projects of that row's month. */
  lemma ChartRowTotal(projects: seq<Project>, metric: ChartMetric, i: nat)
    requires i < |ChartData(projects, metric)|
    ensures var row := ChartData(projects, metric)[i];
      SumOf(row.values, Value) == SumOf(Select(projects, InMonth(row.month)), Figure(metric))
  {
    var row := ChartData(projects, metric)[i];
    SumOfCorrespond(row.values, CHART_PARTNERS, Value, CellOf(projects, metric, row.month));
    RowTotal(projects, metric, row.month);
  }

  /** In the revenue chart, the series of a row add up to the month's total revenue. */
  lemma RevenueRowTotal(projects: seq<Project>, m: string)
    ensures SumOf(CHART_PARTNERS, CellOf(projects, RevenueChart, m)) == SumOf(Select(projects, InMonth(m)), ProjectRevenue)
  {
    RowTotal(projects, RevenueChart, m);
    var month := Select(projects, InMonth(m));
    SumOfCorrespond(month, month, Figure(RevenueChart), ProjectRevenue);
  }

  /** A margin cell is the revenue cell less the expenses of the same projects. */
  lemma MarginCell(projects: seq<Project>, m: string, pt: string)
    ensures Cell(projects, MarginChart, m, pt) == Cell(projects, RevenueChart, m, pt) - SumOf(Select(projects, InCell(m, pt)), ProjectExpenses)
  {
    var c := Select(projects, InCell(m, pt));
    SumOfAdd(c, Figure(RevenueChart), Figure(MarginChart), ProjectExpenses);
  }
}
