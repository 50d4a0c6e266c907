/**
 * The dashboard's query engine: the `filtered` list (partner, product and
 * country selectors and a `YYYY-MM` date window), the `totals` reduce over
 * it with the headline ratios, and `deleteProject`.
 */
module Query {
  import opened Seqs
  import opened Records
  import opened Text
  import opened Dates
  import opened Metrics

  /** The selector value that imposes no constraint. */
  const ALL: string := "All"

  /** The `filters` state: three selectors and the two ends of the date window ("" when unset). */
  datatype Filters = Filters(partner: string, product: string, country: string, dateFrom: string, dateTo: string)

  /** The callback of `projects.filter`: each guard that fires rejects the project. */
  predicate Keep(f: Filters, p: Project)
  {
    && !(f.partner != ALL && p.partner != f.partner)
    && !(f.product != ALL && p.product != f.product)
    && !(f.country != ALL && p.country != f.country)
    && !(f.dateFrom != [] && p.month != [] && StrLess(p.month, f.dateFrom))
    && !(f.dateTo != [] && p.month != [] && StrLess(f.dateTo, p.month))
  }

  /** A selector is passed when it is "All" or names the field's value. */
  predicate Selected(choice: string, value: string)
  {
    choice == ALL || value == choice
  }

  predicate SelectorsPass(f: Filters, p: Project)
  {
    Selected(f.partner, p.partner) && Selected(f.product, p.product) && Selected(f.country, p.country)
  }

  /** `a <= b` on strings. */
  predicate StrLessEq(a: string, b: string)
  {
    a == b || StrLess(a, b)
  }

  /** A month inside the window, each end compared as a string; an empty month is inside every window. */
  predicate InWindow(f: Filters, month: string)
  {
    month == [] || ((f.dateFrom == [] || StrLessEq(f.dateFrom, month)) && (f.dateTo == [] || StrLessEq(month, f.dateTo)))
  }

  /** Not below is at or above, for strings. */
  lemma NotLessIsAtLeast(a: string, b: string)
    ensures !StrLess(a, b) <==> StrLessEq(b, a)
  {
    if a == b {
      StrLessIrreflexive(a);
    } else if StrLess(b, a) {
      StrLessAsymmetric(b, a);
    } else {
      StrLessTotal(a, b);
    }
  }

  /**
   * A project passes exactly when every selector is "All" or equal to its
   * field, and its month is empty or lies in the window: `dateFrom <= month`
   * when `dateFrom` is set and `month <= dateTo` when `dateTo` is set.
   */
  lemma KeepMeaning(f: Filters, p: Project)
    ensures Keep(f, p) <==> SelectorsPass(f, p) && InWindow(f, p.month)
  {
    NotLessIsAtLeast(p.month, f.dateFrom);
    NotLessIsAtLeast(f.dateTo, p.month);
  }

  /** "Unknown" is above every month key, so a `dateTo` that is a month key rejects it. */
  lemma UnknownExcludedByDateTo(f: Filters, p: Project, hi: YearMonth)
    requires p.month == UNKNOWN_MONTH && f.dateTo == FormatYearMonth(hi)
    ensures !Keep(f, p)
  {
    KeyBeforeUnknown(hi);
  }

  /** With only `dateFrom` set to a month key, "Unknown" passes the window. */
  lemma UnknownKeptByDateFrom(f: Filters, p: Project, lo: YearMonth)
    requires p.month == UNKNOWN_MONTH && f.dateFrom == FormatYearMonth(lo) && f.dateTo == []
    ensures Keep(f, p) <==> SelectorsPass(f, p)
  {
    KeyBeforeUnknown(lo);
  }

  /** An empty month is never rejected by the date window. */
  lemma EmptyMonthKept(f: Filters, p: Project)
    requires p.month == []
    ensures Keep(f, p) <==> SelectorsPass(f, p)
  {
    KeepMeaning(f, p);
  }

  /** `a` is not later than `b`. */
  predicate NotAfter(a: YearMonth, b: YearMonth)
  {
    a.year < b.year || (a.year == b.year && a.month <= b.month)
  }

  /** For month keys with four-digit years the string window is the calendar window. */
  lemma WindowIsChronological(f: Filters, p: Project, m: YearMonth, lo: YearMonth, hi: YearMonth)
    requires 1000 <= m.year <= 9999 && 1000 <= lo.year <= 9999 && 1000 <= hi.year <= 9999
    requires p.month == FormatYearMonth(m) && f.dateFrom == FormatYearMonth(lo) && f.dateTo == FormatYearMonth(hi)
    ensures Keep(f, p) <==> SelectorsPass(f, p) && NotAfter(lo, m) && NotAfter(m, hi)
  {
    KeysChronological(m, lo);
    KeysChronological(hi, m);
  }

  function Matches(f: Filters): Project -> bool
  {
    (p: Project) => Keep(f, p)
  }

  /** `filtered`: the passing projects, each as often as before, in their original order. */
  function Filtered(f: Filters, projects: seq<Project>): (r: seq<Project>)
    ensures IsSubsequence(r, projects)
    ensures forall p :: p in r <==> p in projects && Keep(f, p)
    ensures forall p :: multiset(r)[p] == if Keep(f, p) then multiset(projects)[p] else 0
  {
    SelectMultisetAll(projects, Matches(f));
    Select(projects, Matches(f))
  }

  /** With every selector at "All" and no date window, nothing is filtered out. */
  lemma NoFiltersKeepAll(projects: seq<Project>)
    ensures Filtered(Filters(ALL, ALL, ALL, [], []), projects) == projects
  {
    SelectAll(projects, Matches(Filters(ALL, ALL, ALL, [], [])));
  }

  // ---------------------------------------------------------------------------
  // Totals
  // ---------------------------------------------------------------------------

  /** The accumulator of the `totals` reduce. */
  datatype Totals = Totals(rev: real, exp: real, imgs: real)

  /** One step of the reduce. */
  function AddProject(a: Totals, p: Project): Totals
  {
    var t := CalcTotals(p);
    Totals(a.rev + t.totalRevenue, a.exp + t.totalExpenses, a.imgs + p.numImages)
  }

  /** The reduce from the accumulator `a`, left to right. */
  function ReduceTotals(a: Totals, ps: seq<Project>): (r: Totals)
    ensures r.rev == a.rev + SumOf(ps, ProjectRevenue)
    ensures r.exp == a.exp + SumOf(ps, ProjectExpenses)
    ensures r.imgs == a.imgs + SumOf(ps, ProjectImages)
    decreases |ps|
  {
    if ps == [] then a else ReduceTotals(AddProject(a, ps[0]), ps[1..])
  }

  /** The headline figures over the filtered projects. */
  datatype Dashboard = Dashboard(
    count: nat,
    rev: real,
    exp: real,
    imgs: real,
    margin: real,
    marginPct: real,
    revenuePerImage: real,
    expensePerImage: real)

  /** `margin`, `marginPct` and the two per-image cards from the `totals` of `count` projects. */
  function Headline(t: Totals, count: nat): (d: Dashboard)
    ensures d.count == count && d.rev == t.rev && d.exp == t.exp && d.imgs == t.imgs
    ensures d.margin == d.rev - d.exp
    ensures d.rev <= 0.0 ==> d.marginPct == 0.0
    ensures d.rev > 0.0 ==> d.marginPct * d.rev == d.margin * 100.0
    ensures d.imgs <= 0.0 ==> d.revenuePerImage == 0.0 && d.expensePerImage == 0.0
    ensures d.imgs > 0.0 ==> d.revenuePerImage * d.imgs == d.rev && d.expensePerImage * d.imgs == d.exp
  {
    var margin := t.rev - t.exp;
    Dashboard(count, t.rev, t.exp, t.imgs, margin, Percent(margin, t.rev), PerUnit(t.rev, t.imgs), PerUnit(t.exp, t.imgs))
  }

  /** The dashboard cards: the totals are the sums over the filtered projects. */
  function DashboardOf(f: Filters, projects: seq<Project>): (d: Dashboard)
    ensures var ps := Filtered(f, projects);
      && d == Headline(Totals(d.rev, d.exp, d.imgs), |ps|)
      && d.rev == SumOf(ps, ProjectRevenue)
      && d.exp == SumOf(ps, ProjectExpenses)
      && d.imgs == SumOf(ps, ProjectImages)
  {
    var ps := Filtered(f, projects);
    Headline(ReduceTotals(Totals(0.0, 0.0, 0.0), ps), |ps|)
  }

  // ---------------------------------------------------------------------------
  // deleteProject
  // ---------------------------------------------------------------------------

  function OtherThan(id: string): Project -> bool
  {
    (p: Project) => p.id != id
  }

  /** `deleteProject(id)`: every project with that id goes, the others stay, in their order. */
  function DeleteProject(projects: seq<Project>, id: string): (r: seq<Project>)
    ensures IsSubsequence(r, projects)
    ensures forall i :: 0 <= i < |r| ==> r[i].id != id
    ensures forall p :: multiset(r)[p] == if p.id == id then 0 else multiset(projects)[p]
  {
    SelectMultisetAll(projects, OtherThan(id));
    var r := Select(projects, OtherThan(id));
    assert forall i :: 0 <= i < |r| ==> r[i] in r;
    r
  }

  /** Deleting an id no project has changes nothing; so deleting twice is deleting once. */
  lemma DeleteAbsent(projects: seq<Project>, id: string)
    requires forall i :: 0 <= i < |projects| ==> projects[i].id != id
    ensures DeleteProject(projects, id) == projects
  {
    forall p | p in projects
      ensures OtherThan(id)(p)
    {
    }
    SelectAll(projects, OtherThan(id));
  }

  lemma DeleteIdempotent(projects: seq<Project>, id: string)
    ensures DeleteProject(DeleteProject(projects, id), id) == DeleteProject(projects, id)
  {
    DeleteAbsent(DeleteProject(projects, id), id);
  }
}
