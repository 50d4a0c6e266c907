/**
 * The project aggregator of the sheet reconciler, as values: a table from
 * project id to project, built by folding the revenue rows and then the
 * expense rows. `ensureProject` is `Ensure`, one iteration of either loop is
 * `Step`, a whole loop is `Fold`, and the response body's `projects` is
 * `Reconcile`. The class in module `Reconciler` performs the same updates
 * in place and is proved equal to these functions.
 */
module Aggregator {
  import opened Wrappers
  import opened Seqs
  import opened Records
  import opened LineItems
  import opened Country
  import opened Amounts
  import opened Dates
  import opened JsObjects

  // ---------------------------------------------------------------------------
  // Rows
  // ---------------------------------------------------------------------------

  /** One sheet row as delivered by the tab reader: trimmed header to trimmed cell. */
  type Row = map<string, string>

  /** `row[h] || ""`: a header the row lacks reads as the empty string. */
  function Cell(row: Row, h: string): string
  {
    if h in row then row[h] else ""
  }

  /** `row["Project Id"] || row["Project ID"] || row["project_id"]`; `None` when all three are empty. */
  function RowId(row: Row): (r: Option<string>)
    ensures r.Some? ==> r.value != []
    ensures r.None? <==> Cell(row, "Project Id") == [] && Cell(row, "Project ID") == [] && Cell(row, "project_id") == []
  {
    if Cell(row, "Project Id") != [] then Some(Cell(row, "Project Id"))
    else if Cell(row, "Project ID") != [] then Some(Cell(row, "Project ID"))
    else if Cell(row, "project_id") != [] then Some(Cell(row, "project_id"))
    else None
  }

  /** The two tabs the reconciler reads. */
  datatype Sheet = RevenueSheet | ExpenseSheet

  function DateHeader(sheet: Sheet): string
  {
    match sheet
    case RevenueSheet => "Revenue Date"
    case ExpenseSheet => "Expense Date"
  }

  function LineItemHeader(sheet: Sheet): string
  {
    match sheet
    case RevenueSheet => "Revenue Line Item"
    case ExpenseSheet => "Expense Line Item"
  }

  function AmountHeader(sheet: Sheet): string
  {
    match sheet
    case RevenueSheet => "Revenue Amount"
    case ExpenseSheet => "Expense Amount"
  }

  /** A money bucket of a project, on either side. */
  datatype Bucket = Revenue(rev: RevenueBucket) | Expense(exp: ExpenseBucket)

  function Amount(p: Project, b: Bucket): real
  {
    match b
    case Revenue(k) => p.revenue.Get(k)
    case Expense(k) => p.expenses.Get(k)
  }

  /** The bucket a row's line item maps to in its own sheet's table, if any. */
  function RowBucket(sheet: Sheet, row: Row): (r: Option<Bucket>)
    ensures r.Some? && sheet == RevenueSheet ==> r.value.Revenue?
    ensures r.Some? && sheet == ExpenseSheet ==> r.value.Expense?
  {
    var item := Cell(row, LineItemHeader(sheet));
    match sheet
    case RevenueSheet =>
      (match RevenueLineItem(item)
       case Some(k) => Some(Revenue(k))
       case None => None)
    case ExpenseSheet =>
      (match ExpenseLineItem(item)
       case Some(k) => Some(Expense(k))
       case None => None)
  }

  /** The amount cell, with `$` and `,` removed; 0 where it does not parse. */
  function RowAmount(sheet: Sheet, row: Row): real
  {
    ParseAmount(Cell(row, AmountHeader(sheet)))
  }

  /** `parseFloat(row["Images"] || "0")`; `None` is NaN. */
  function ImageCount(row: Row): Option<real>
  {
    ParseImages(Cell(row, "Images"))
  }

  /**
   * Everything one iteration of a loop takes from its row: the id, the
   * fields a new project would get, the image count, the mapped bucket and
   * the amount. Reading the cells has no effect, so the loops are modelled
   * as reading each row and then applying the reading.
   */
  datatype Reading = Reading(
    id: Option<string>,
    partner: string,
    product: string,
    country: string,
    month: string,
    images: Option<real>,
    bucket: Option<Bucket>,
    amount: real)

  function Read(parse: DateParser, sheet: Sheet, row: Row): Reading
  {
    Reading(
      RowId(row),
      Cell(row, "Partner"),
      Cell(row, "Package"),
      NormalizeCountry(Cell(row, "Country")),
      MonthKey(parse, Cell(row, DateHeader(sheet))),
      ImageCount(row),
      RowBucket(sheet, row),
      RowAmount(sheet, row))
  }

  /** The readings of `rows`, in order. */
  function ReadAll(parse: DateParser, sheet: Sheet, rows: seq<Row>): (r: seq<Reading>)
    ensures |r| == |rows| && forall i :: 0 <= i < |rows| ==> r[i] == Read(parse, sheet, rows[i])
  {
    seq(|rows|, i requires 0 <= i < |rows| => Read(parse, sheet, rows[i]))
  }

  // ---------------------------------------------------------------------------
  // One project
  // ---------------------------------------------------------------------------

  /** The project `ensureProject` creates for an id seen for the first time. */
  function NewProject(r: Reading, id: string): Project
  {
    Project(id, r.partner, r.product, r.country, 0.0, r.month, ZERO_REVENUE, ZERO_EXPENSES)
  }

  /** The fields fixed when a project is created. */
  function Identity(p: Project): (string, string, string, string, string)
  {
    (p.id, p.partner, p.product, p.country, p.month)
  }

  /**
   * A new project takes partner and product unchanged, the normalised
   * country and the month key of the row's date; all ten buckets are 0 and
   * so is its image count.
   */
  lemma NewProjectFromRow(parse: DateParser, sheet: Sheet, row: Row, id: string)
    ensures var p := NewProject(Read(parse, sheet, row), id);
      && Identity(p) == (id, Cell(row, "Partner"), Cell(row, "Package"),
                         NormalizeCountry(Cell(row, "Country")), MonthKey(parse, Cell(row, DateHeader(sheet))))
      && p.numImages == 0.0
      && (forall b :: Amount(p, b) == 0.0)
  {
    var p := NewProject(Read(parse, sheet, row), id);
    forall b
      ensures Amount(p, b) == 0.0
    {
      match b
      case Revenue(k) => assert p.revenue == ZERO_REVENUE;
      case Expense(k) => assert p.expenses == ZERO_EXPENSES;
    }
  }

  /** `if (!isNaN(imgs) && imgs > numImages) numImages = imgs`. */
  function RaiseImages(p: Project, imgs: Option<real>): (r: Project)
    ensures Identity(r) == Identity(p) && r.revenue == p.revenue && r.expenses == p.expenses
    ensures r.numImages >= p.numImages
    ensures imgs.Some? ==> r.numImages >= imgs.value
    ensures r.numImages == p.numImages || (imgs.Some? && r.numImages == imgs.value)
  {
    if imgs.Some? && imgs.value > p.numImages then p.(numImages := imgs.value) else p
  }

  /** `revenue[mappedKey] += amount` (or `expenses[...]`) when the line item is mapped. */
  function Book(p: Project, r: Reading): (q: Project)
    ensures Identity(q) == Identity(p) && q.numImages == p.numImages
  {
    match r.bucket
    case None => p
    case Some(Revenue(k)) => p.(revenue := p.revenue.Add(k, r.amount))
    case Some(Expense(k)) => p.(expenses := p.expenses.Add(k, r.amount))
  }

  /** Booking moves exactly one bucket, the mapped one, by exactly the amount. */
  lemma BookEffect(p: Project, r: Reading, b: Bucket)
    ensures Amount(Book(p, r), b) == Amount(p, b) + (if r.bucket == Some(b) then r.amount else 0.0)
  {
  }

  /** What one row with an id does to its project. */
  function Update(p: Project, r: Reading): (q: Project)
    ensures Identity(q) == Identity(p)
  {
    Book(RaiseImages(p, r.images), r)
  }

  // ---------------------------------------------------------------------------
  // The table
  // ---------------------------------------------------------------------------

  /** The `projects` object: its entries, and the order in which its keys were first assigned. */
  datatype Table = Table(byId: map<string, Project>, order: seq<string>)

  /** Every key listed once, exactly the keys of the map, each project stored under its own id. */
  ghost predicate TableInvariant(t: Table)
  {
    && Distinct(t.order)
    && (forall k :: k in t.order <==> k in t.byId)
    && (forall k :: k in t.byId ==> t.byId[k].id == k)
  }

  const EMPTY_TABLE := Table(map[], [])

  /** `ensureProject`, for a row whose id is `id`: creates the project unless the id is known. */
  function Ensure(t: Table, r: Reading, id: string): (u: Table)
    ensures id in u.byId
    ensures id in t.byId ==> u == t
    ensures id !in t.byId ==> u.byId[id] == NewProject(r, id) && u.order == t.order + [id]
    ensures forall k :: k in t.byId ==> k in u.byId && u.byId[k] == t.byId[k]
    ensures forall k :: k in u.byId ==> k in t.byId || k == id
  {
    if id in t.byId then t
    else Table(t.byId[id := NewProject(r, id)], t.order + [id])
  }

  /** One iteration of the revenue or the expense loop. */
  function Step(t: Table, r: Reading): Table
  {
    match r.id
    case None => t
    case Some(id) =>
      var t1 := Ensure(t, r, id);
      Table(t1.byId[id := Update(t1.byId[id], r)], t1.order)
  }

  /** A loop over the readings `rs`, from the table `t`. */
  function Fold(t: Table, rs: seq<Reading>): Table
  {
    if rs == [] then t else Step(Fold(t, rs[..|rs| - 1]), rs[|rs| - 1])
  }

  /** The table after the revenue loop over `rev` and then the expense loop over `exp`. */
  function Collect(rev: seq<Reading>, exp: seq<Reading>): Table
  {
    Fold(Fold(EMPTY_TABLE, rev), exp)
  }

  /** The table the handler builds from the two tabs. */
  function FinalTable(parse: DateParser, revenueRows: seq<Row>, expenseRows: seq<Row>): Table
  {
    Collect(ReadAll(parse, RevenueSheet, revenueRows), ReadAll(parse, ExpenseSheet, expenseRows))
  }

  /** The projects stored under `keys`, in that order. */
  function ValuesOf(keys: seq<string>, m: map<string, Project>): (ps: seq<Project>)
    requires forall k :: k in keys ==> k in m
    ensures |ps| == |keys| && forall i :: 0 <= i < |keys| ==> ps[i] == m[keys[i]]
  {
    if keys == [] then [] else [m[keys[0]]] + ValuesOf(keys[1..], m)
  }

  lemma OwnKeysStored(t: Table)
    requires TableInvariant(t)
    ensures forall k :: k in OwnKeys(t.order) ==> k in t.byId
  {
    var keys := OwnKeys(t.order);
    forall k | k in keys
      ensures k in t.byId
    {
      assert k in multiset(keys);
    }
  }

  /** `Object.values(projects)`. */
  function Values(t: Table): (ps: seq<Project>)
    requires TableInvariant(t)
  {
    OwnKeysStored(t);
    ValuesOf(OwnKeys(t.order), t.byId)
  }

  /** `Object.values(projects)` after both loops over the readings `rev` and `exp`. */
  function Projects(rev: seq<Reading>, exp: seq<Reading>): seq<Project>
  {
    CollectInvariant(rev, exp);
    Values(Collect(rev, exp))
  }

  /** The `projects` array of the response. */
  function Reconcile(parse: DateParser, revenueRows: seq<Row>, expenseRows: seq<Row>): seq<Project>
  {
    Projects(ReadAll(parse, RevenueSheet, revenueRows), ReadAll(parse, ExpenseSheet, expenseRows))
  }

  // ---------------------------------------------------------------------------
  // One step
  // ---------------------------------------------------------------------------

  /** A row with none of the three id cells filled leaves the table unchanged. */
  lemma RowWithoutIdSkipped(t: Table, parse: DateParser, sheet: Sheet, row: Row)
    requires Cell(row, "Project Id") == [] && Cell(row, "Project ID") == [] && Cell(row, "project_id") == []
    ensures Step(t, Read(parse, sheet, row)) == t
  {
  }

  lemma AppendDistinct(s: seq<string>, x: string)
    requires Distinct(s) && x !in s
    ensures Distinct(s + [x])
  {
    var u := s + [x];
    forall i, j | 0 <= i < j < |u|
      ensures u[i] != u[j]
    {
      assert u[i] == s[i];
      if j < |s| {
        assert u[j] == s[j];
      }
    }
  }

  lemma StepInvariant(t: Table, r: Reading)
    requires TableInvariant(t)
    ensures TableInvariant(Step(t, r))
  {
    if r.id.Some? && r.id.value !in t.byId {
      AppendDistinct(t.order, r.id.value);
    }
  }

  /** Projects other than the reading's own are untouched; the keys grow by its id only. */
  lemma StepOthers(t: Table, r: Reading)
    ensures var u := Step(t, r);
      && (forall k :: k in u.byId <==> k in t.byId || r.id == Some(k))
      && (forall k :: k in t.byId && r.id != Some(k) ==> u.byId[k] == t.byId[k])
  {
  }

  /** The reading's own project keeps the identity it was created with. */
  lemma StepIdentity(t: Table, r: Reading, id: string)
    requires r.id == Some(id)
    ensures id in Step(t, r).byId
    ensures Identity(Step(t, r).byId[id]) == if id in t.byId then Identity(t.byId[id]) else Identity(NewProject(r, id))
  {
  }

  /** The reading's own project: its image count is raised to the row's count when larger. */
  lemma StepImages(t: Table, r: Reading, id: string)
    requires r.id == Some(id)
    ensures var n0 := if id in t.byId then t.byId[id].numImages else 0.0;
      var n := Step(t, r).byId[id].numImages;
      n == if r.images.Some? && r.images.value > n0 then r.images.value else n0
  {
  }

  /** The reading's own project: only the mapped bucket changes, by the row's amount. */
  lemma StepBuckets(t: Table, r: Reading, id: string, b: Bucket)
    requires r.id == Some(id)
    ensures var a0 := if id in t.byId then Amount(t.byId[id], b) else 0.0;
      Amount(Step(t, r).byId[id], b) == a0 + (if r.bucket == Some(b) then r.amount else 0.0)
  {
    var t1 := Ensure(t, r, id);
    var p := RaiseImages(t1.byId[id], r.images);
    BookEffect(p, r, b);
    if id !in t.byId {
      match b
      case Revenue(k) => assert p.revenue == ZERO_REVENUE;
      case Expense(k) => assert p.expenses == ZERO_EXPENSES;
    }
  }

  // ---------------------------------------------------------------------------
  // Whole loops
  // ---------------------------------------------------------------------------

  lemma {:induction false} FoldInvariant(t: Table, rs: seq<Reading>)
    requires TableInvariant(t)
    ensures TableInvariant(Fold(t, rs))
  {
    if rs != [] {
      FoldInvariant(t, rs[..|rs| - 1]);
      StepInvariant(Fold(t, rs[..|rs| - 1]), rs[|rs| - 1]);
    }
  }

  /** A loop over the first `i + 1` readings is the loop over the first `i`, then one step. */
  lemma FoldPrefix(t: Table, rs: seq<Reading>, i: nat)
    requires i < |rs|
    ensures Fold(t, rs[..i + 1]) == Step(Fold(t, rs[..i]), rs[i])
  {
    assert rs[..i + 1][..i] == rs[..i];
  }

  lemma CollectInvariant(rev: seq<Reading>, exp: seq<Reading>)
    ensures TableInvariant(Collect(rev, exp))
  {
    FoldInvariant(EMPTY_TABLE, rev);
    FoldInvariant(Fold(EMPTY_TABLE, rev), exp);
  }

  lemma FinalInvariant(parse: DateParser, revenueRows: seq<Row>, expenseRows: seq<Row>)
    ensures TableInvariant(FinalTable(parse, revenueRows, expenseRows))
  {
    CollectInvariant(ReadAll(parse, RevenueSheet, revenueRows), ReadAll(parse, ExpenseSheet, expenseRows));
  }

  /** A loop over `a + b` is the loop over `a` followed by the loop over `b`. */
  lemma {:induction false} FoldSplit(t: Table, a: seq<Reading>, b: seq<Reading>)
    ensures Fold(t, a + b) == Fold(Fold(t, a), b)
    decreases |b|
  {
    if b == [] {
      assert a + b == a;
    } else {
      var ab := a + b;
      assert ab[..|ab| - 1] == a + b[..|b| - 1];
      assert ab[|ab| - 1] == b[|b| - 1];
      FoldSplit(t, a, b[..|b| - 1]);
    }
  }

  /** Some reading of `rs` carries the id `k`. */
  ghost predicate SeenIn(rs: seq<Reading>, k: string)
  {
    exists i :: 0 <= i < |rs| && rs[i].id == Some(k)
  }

  lemma SeenInSnoc(rs: seq<Reading>, k: string)
    requires rs != []
    ensures SeenIn(rs, k) <==> SeenIn(rs[..|rs| - 1], k) || rs[|rs| - 1].id == Some(k)
  {
    var init := rs[..|rs| - 1];
    if SeenIn(rs, k) {
      var i :| 0 <= i < |rs| && rs[i].id == Some(k);
      if i < |init| {
        assert init[i] == rs[i];
      }
    }
    if SeenIn(init, k) {
      var i :| 0 <= i < |init| && init[i].id == Some(k);
      assert rs[i] == init[i];
    }
  }

  /** After a loop the keys are the earlier keys and the ids of the rows. */
  lemma {:induction false} FoldKeys(t: Table, rs: seq<Reading>)
    ensures forall k :: k in Fold(t, rs).byId <==> k in t.byId || SeenIn(rs, k)
  {
    if rs != [] {
      var init := rs[..|rs| - 1];
      FoldKeys(t, init);
      StepOthers(Fold(t, init), rs[|rs| - 1]);
      forall k
        ensures SeenIn(rs, k) <==> SeenIn(init, k) || rs[|rs| - 1].id == Some(k)
      {
        SeenInSnoc(rs, k);
      }
    }
  }

  predicate HasId(r: Reading)
  {
    r.id.Some?
  }

  /** Rows without an id can be dropped from a loop without changing its result. */
  lemma {:induction false} FoldIgnoresIdless(t: Table, rs: seq<Reading>)
    ensures Fold(t, rs) == Fold(t, Select(rs, HasId))
  {
    if rs != [] {
      var init, last := rs[..|rs| - 1], rs[|rs| - 1];
      assert rs == init + [last];
      FoldIgnoresIdless(t, init);
      SelectConcat(init, [last], HasId);
      var kept := Select(init, HasId);
      if HasId(last) {
        assert Select([last], HasId) == [last];
        var s := kept + [last];
        assert s[..|s| - 1] == kept;
      } else {
        assert Select([last], HasId) == [];
        assert kept + [] == kept;
      }
    }
  }

  /** An existing project keeps its identity through a whole loop: the first row seen wins. */
  lemma {:induction false} FoldKeepsIdentity(t: Table, rs: seq<Reading>, k: string)
    requires k in t.byId
    ensures k in Fold(t, rs).byId
    ensures Identity(Fold(t, rs).byId[k]) == Identity(t.byId[k])
  {
    if rs != [] {
      var init, last := rs[..|rs| - 1], rs[|rs| - 1];
      FoldKeepsIdentity(t, init, k);
      var mid := Fold(t, init);
      StepOthers(mid, last);
      if last.id == Some(k) {
        StepIdentity(mid, last, k);
      }
    }
  }

  /** A loop that never sees `k` does not create it. */
  lemma FoldUnseen(t: Table, rs: seq<Reading>, k: string)
    requires k !in t.byId && forall i :: 0 <= i < |rs| ==> rs[i].id != Some(k)
    ensures k !in Fold(t, rs).byId
  {
    FoldKeys(t, rs);
  }

  /**
   * A project created by a loop has the identity given by the first reading
   * of that loop that carries its id.
   */
  lemma FirstRowFixesIdentity(t: Table, rs: seq<Reading>, k: string, j: nat)
    requires k !in t.byId
    requires j < |rs| && rs[j].id == Some(k)
    requires forall i :: 0 <= i < j ==> rs[i].id != Some(k)
    ensures k in Fold(t, rs).byId
    ensures Identity(Fold(t, rs).byId[k]) == Identity(NewProject(rs[j], k))
  {
    var before, upto := rs[..j], rs[..j + 1];
    assert upto + rs[j + 1..] == rs;
    FoldUnseen(t, before, k);
    assert upto[..j] == before && upto[j] == rs[j];
    StepIdentity(Fold(t, before), rs[j], k);
    FoldSplit(t, upto, rs[j + 1..]);
    FoldKeepsIdentity(Fold(t, upto), rs[j + 1..], k);
  }

  /** After a loop, an image count is the largest of its start and the counts of its rows. */
  lemma {:induction false} FoldImages(t: Table, rs: seq<Reading>, k: string)
    requires k in Fold(t, rs).byId
    ensures var n := Fold(t, rs).byId[k].numImages;
      var n0 := if k in t.byId then t.byId[k].numImages else 0.0;
      && n >= n0
      && (forall i :: 0 <= i < |rs| && rs[i].id == Some(k) && rs[i].images.Some? ==> n >= rs[i].images.value)
      && (n == n0 || exists i :: 0 <= i < |rs| && rs[i].id == Some(k) && rs[i].images == Some(n))
  {
    if rs != [] {
      var init, last := rs[..|rs| - 1], rs[|rs| - 1];
      var mid := Fold(t, init);
      var n := Fold(t, rs).byId[k].numImages;
      var n0 := if k in t.byId then t.byId[k].numImages else 0.0;
      StepOthers(mid, last);
      if k in mid.byId {
        FoldImages(t, init, k);
      } else {
        FoldKeys(t, init);
        assert !SeenIn(init, k) && k !in t.byId;
      }
      var m := if k in mid.byId then mid.byId[k].numImages else 0.0;
      assert m >= n0;
      assert forall i :: 0 <= i < |init| ==> init[i] == rs[i];
      if last.id == Some(k) {
        StepImages(mid, last, k);
      } else {
        assert n == m;
      }
      assert m == n0 || exists i :: 0 <= i < |init| && init[i].id == Some(k) && init[i].images == Some(m);
    }
  }

  // ---------------------------------------------------------------------------
  // Money is conserved
  // ---------------------------------------------------------------------------

  /** Bucket `b` of the project stored under a key; 0 for a key without one. */
  function KeyAmount(m: map<string, Project>, b: Bucket): string -> real
  {
    k => if k in m then Amount(m[k], b) else 0.0
  }

  function AmountOf(b: Bucket): Project -> real
  {
    p => Amount(p, b)
  }

  /** Bucket `b` summed over the projects of the table. */
  function TableSum(t: Table, b: Bucket): real
  {
    SumOf(t.order, KeyAmount(t.byId, b))
  }

  /** What a reading adds to bucket `b`: its amount when it has an id and maps to `b`. */
  function Contribution(r: Reading, b: Bucket): real
  {
    if r.id.Some? && r.bucket == Some(b) then r.amount else 0.0
  }

  function ContributionTo(b: Bucket): Reading -> real
  {
    r => Contribution(r, b)
  }

  /** Bucket `b`'s share of the amounts of `rs`. */
  function ReadingsSum(rs: seq<Reading>, b: Bucket): real
  {
    SumOf(rs, ContributionTo(b))
  }

  /** Storing under a key the sum does not visit does not change it. */
  lemma {:induction false} KeysSumFresh(keys: seq<string>, m: map<string, Project>, id: string, p: Project, b: Bucket)
    requires id !in keys
    ensures SumOf(keys, KeyAmount(m[id := p], b)) == SumOf(keys, KeyAmount(m, b))
  {
    if keys != [] {
      KeysSumFresh(keys[1..], m, id, p, b);
    }
  }

  /** Replacing the project under a key visited once changes the sum by the difference. */
  lemma {:induction false} KeysSumUpdate(keys: seq<string>, m: map<string, Project>, id: string, p: Project, b: Bucket)
    requires Distinct(keys) && id in keys && id in m
    ensures SumOf(keys, KeyAmount(m[id := p], b)) == SumOf(keys, KeyAmount(m, b)) - Amount(m[id], b) + Amount(p, b)
  {
    assert keys == [keys[0]] + keys[1..];
    DistinctCons(keys[0], keys[1..]);
    if keys[0] == id {
      KeysSumFresh(keys[1..], m, id, p, b);
    } else {
      KeysSumUpdate(keys[1..], m, id, p, b);
    }
  }

  /** A new project starts with every bucket at 0. */
  lemma NewProjectEmpty(r: Reading, id: string, b: Bucket)
    ensures Amount(NewProject(r, id), b) == 0.0
  {
    match b
    case Revenue(k) => assert NewProject(r, id).revenue == ZERO_REVENUE;
    case Expense(k) => assert NewProject(r, id).expenses == ZERO_EXPENSES;
  }

  /** Creating a project adds nothing to any bucket total. */
  lemma EnsureSum(t: Table, r: Reading, id: string, b: Bucket)
    requires TableInvariant(t)
    ensures TableInvariant(Ensure(t, r, id))
    ensures TableSum(Ensure(t, r, id), b) == TableSum(t, b)
  {
    if id !in t.byId {
      var t1 := Ensure(t, r, id);
      AppendDistinct(t.order, id);
      SumOfSnoc(t.order, id, KeyAmount(t1.byId, b));
      KeysSumFresh(t.order, t.byId, id, NewProject(r, id), b);
      NewProjectEmpty(r, id, b);
    }
  }

  /** One step adds the reading's contribution to bucket `b` of the table. */
  lemma StepSum(t: Table, r: Reading, b: Bucket)
    requires TableInvariant(t)
    ensures TableSum(Step(t, r), b) == TableSum(t, b) + Contribution(r, b)
  {
    if r.id.Some? {
      var id := r.id.value;
      var t1 := Ensure(t, r, id);
      EnsureSum(t, r, id, b);
      var p := t1.byId[id];
      KeysSumUpdate(t1.order, t1.byId, id, Update(p, r), b);
      BookEffect(RaiseImages(p, r.images), r, b);
    }
  }

  /** A loop adds the contributions of its rows to every bucket of the table. */
  lemma {:induction false} FoldSum(t: Table, rs: seq<Reading>, b: Bucket)
    requires TableInvariant(t)
    ensures TableSum(Fold(t, rs), b) == TableSum(t, b) + ReadingsSum(rs, b)
  {
    if rs != [] {
      var init, last := rs[..|rs| - 1], rs[|rs| - 1];
      assert rs == init + [last];
      FoldSum(t, init, b);
      FoldInvariant(t, init);
      StepSum(Fold(t, init), last, b);
      SumOfSnoc(init, last, ContributionTo(b));
    }
  }

  lemma {:induction false} ValuesOfSum(keys: seq<string>, m: map<string, Project>, b: Bucket)
    requires forall k :: k in keys ==> k in m
    ensures SumOf(ValuesOf(keys, m), AmountOf(b)) == SumOf(keys, KeyAmount(m, b))
  {
    if keys != [] {
      assert ValuesOf(keys, m)[1..] == ValuesOf(keys[1..], m);
      ValuesOfSum(keys[1..], m, b);
    }
  }

  /** Listing the projects in `Object.values` order does not change any bucket total. */
  lemma ValuesSum(t: Table, b: Bucket)
    requires TableInvariant(t)
    ensures SumOf(Values(t), AmountOf(b)) == TableSum(t, b)
  {
    OwnKeysStored(t);
    ValuesOfSum(OwnKeys(t.order), t.byId, b);
    SumOfPermutation(OwnKeys(t.order), t.order, KeyAmount(t.byId, b));
  }

  /** Readings none of which maps to `b` contribute nothing to it. */
  lemma {:induction false} ReadingsSumZero(rs: seq<Reading>, b: Bucket)
    requires forall i :: 0 <= i < |rs| ==> rs[i].bucket != Some(b)
    ensures ReadingsSum(rs, b) == 0.0
  {
    if rs != [] {
      ReadingsSumZero(rs[1..], b);
    }
  }

  /** Bucket `b` summed over the projects of the table built from `rev` and `exp`. */
  lemma CollectTotals(rev: seq<Reading>, exp: seq<Reading>, b: Bucket)
    requires forall i :: 0 <= i < |rev| ==> rev[i].bucket.Some? ==> rev[i].bucket.value.Revenue?
    requires forall i :: 0 <= i < |exp| ==> exp[i].bucket.Some? ==> exp[i].bucket.value.Expense?
    ensures SumOf(Projects(rev, exp), AmountOf(b)) == if b.Revenue? then ReadingsSum(rev, b) else ReadingsSum(exp, b)
  {
    CollectSum(rev, exp, b);
    if b.Revenue? {
      ReadingsSumZero(exp, b);
    } else {
      ReadingsSumZero(rev, b);
    }
  }

  /** Bucket `b` summed over the projects is what both loops' readings contribute to it. */
  lemma CollectSum(rev: seq<Reading>, exp: seq<Reading>, b: Bucket)
    ensures SumOf(Projects(rev, exp), AmountOf(b)) == ReadingsSum(rev, b) + ReadingsSum(exp, b)
  {
    var mid := Fold(EMPTY_TABLE, rev);
    FoldInvariant(EMPTY_TABLE, rev);
    FoldSum(EMPTY_TABLE, rev, b);
    assert TableSum(mid, b) == ReadingsSum(rev, b);
    FoldSum(mid, exp, b);
    CollectInvariant(rev, exp);
    var all := Collect(rev, exp);
    assert TableSum(all, b) == ReadingsSum(rev, b) + ReadingsSum(exp, b);
    ValuesSum(all, b);
  }

  /** The readings of a sheet map only to buckets of that sheet's side. */
  lemma ReadAllSides(parse: DateParser, revenueRows: seq<Row>, expenseRows: seq<Row>)
    ensures var rev := ReadAll(parse, RevenueSheet, revenueRows);
      forall i :: 0 <= i < |rev| ==> rev[i].bucket.Some? ==> rev[i].bucket.value.Revenue?
    ensures var exp := ReadAll(parse, ExpenseSheet, expenseRows);
      forall i :: 0 <= i < |exp| ==> exp[i].bucket.Some? ==> exp[i].bucket.value.Expense?
  {
  }

  /**
   * Across the returned projects, each revenue bucket totals the amounts of
   * the revenue rows with an id whose line item maps to it, and each expense
   * bucket totals the matching expense rows; nothing is lost, counted twice
   * or booked on the other side.
   */
  lemma ReconcileTotals(parse: DateParser, revenueRows: seq<Row>, expenseRows: seq<Row>, b: Bucket)
    ensures var total := SumOf(Reconcile(parse, revenueRows, expenseRows), AmountOf(b));
      total == if b.Revenue? then ReadingsSum(ReadAll(parse, RevenueSheet, revenueRows), b)
               else ReadingsSum(ReadAll(parse, ExpenseSheet, expenseRows), b)
  {
    ReadAllSides(parse, revenueRows, expenseRows);
    CollectTotals(ReadAll(parse, RevenueSheet, revenueRows), ReadAll(parse, ExpenseSheet, expenseRows), b);
  }

  // ---------------------------------------------------------------------------
  // The response
  // ---------------------------------------------------------------------------

  /**
   * The response lists one project per id found in either sheet, each once,
   * and nothing else.
   */
  lemma ProjectsListed(rev: seq<Reading>, exp: seq<Reading>)
    ensures var ps := Projects(rev, exp);
      && (forall i, j :: 0 <= i < j < |ps| ==> ps[i].id != ps[j].id)
      && (forall k :: (exists i :: 0 <= i < |ps| && ps[i].id == k) <==> SeenIn(rev, k) || SeenIn(exp, k))
  {
    CollectInvariant(rev, exp);
    TableListed(Collect(rev, exp));
    FoldKeys(EMPTY_TABLE, rev);
    FoldKeys(Fold(EMPTY_TABLE, rev), exp);
  }

  /** `Object.values` of a table lists each stored project once, and every one of them. */
  lemma TableListed(t: Table)
    requires TableInvariant(t)
    ensures var ps := Values(t);
      && (forall i, j :: 0 <= i < j < |ps| ==> ps[i].id != ps[j].id)
      && (forall k :: (exists i :: 0 <= i < |ps| && ps[i].id == k) <==> k in t.byId)
  {
    var keys := OwnKeys(t.order);
    OwnKeysStored(t);
    OwnKeysDistinct(t.order);
    PermutedMembers(keys, t.order);
    ValuesListed(keys, t.byId);
  }

  /** The projects stored under distinct keys, each under its own id, have distinct ids: the keys. */
  lemma ValuesListed(keys: seq<string>, m: map<string, Project>)
    requires Distinct(keys)
    requires forall k :: k in keys ==> k in m && m[k].id == k
    ensures var ps := ValuesOf(keys, m);
      && (forall i, j :: 0 <= i < j < |ps| ==> ps[i].id != ps[j].id)
      && (forall k :: (exists i :: 0 <= i < |ps| && ps[i].id == k) <==> k in keys)
  {
    var ps := ValuesOf(keys, m);
    assert forall i :: 0 <= i < |ps| ==> ps[i].id == keys[i];
    forall k | k in keys
      ensures exists i :: 0 <= i < |ps| && ps[i].id == k
    {
      var i :| 0 <= i < |keys| && keys[i] == k;
      assert ps[i].id == k;
    }
  }

  /** A project first seen in the revenue loop has the identity read from that first row. */
  lemma IdentityFromRevenue(rev: seq<Reading>, exp: seq<Reading>, k: string, j: nat)
    requires j < |rev| && rev[j].id == Some(k)
    requires forall i :: 0 <= i < j ==> rev[i].id != Some(k)
    ensures var t := Collect(rev, exp);
      k in t.byId && Identity(t.byId[k]) == Identity(NewProject(rev[j], k))
  {
    FirstRowFixesIdentity(EMPTY_TABLE, rev, k, j);
    FoldKeepsIdentity(Fold(EMPTY_TABLE, rev), exp, k);
  }

  /** A project only the expense loop sees has the identity read from its first expense row. */
  lemma IdentityFromExpenses(rev: seq<Reading>, exp: seq<Reading>, k: string, j: nat)
    requires forall i :: 0 <= i < |rev| ==> rev[i].id != Some(k)
    requires j < |exp| && exp[j].id == Some(k)
    requires forall i :: 0 <= i < j ==> exp[i].id != Some(k)
    ensures var t := Collect(rev, exp);
      k in t.byId && Identity(t.byId[k]) == Identity(NewProject(exp[j], k))
  {
    FoldUnseen(EMPTY_TABLE, rev, k);
    FirstRowFixesIdentity(Fold(EMPTY_TABLE, rev), exp, k, j);
  }

  /**
   * A project's image count is the largest of 0 and the counts that parse in
   * the readings of either loop carrying its id.
   */
  lemma CollectImages(rev: seq<Reading>, exp: seq<Reading>, k: string)
    requires k in Collect(rev, exp).byId
    ensures var n := Collect(rev, exp).byId[k].numImages;
      var rs := rev + exp;
      && n >= 0.0
      && (forall i :: 0 <= i < |rs| && rs[i].id == Some(k) && rs[i].images.Some? ==> n >= rs[i].images.value)
      && (n == 0.0 || exists i :: 0 <= i < |rs| && rs[i].id == Some(k) && rs[i].images == Some(n))
  {
    var mid := Fold(EMPTY_TABLE, rev);
    var rs := rev + exp;
    FoldImages(mid, exp, k);
    FoldKeys(EMPTY_TABLE, rev);
    if k in mid.byId {
      FoldImages(EMPTY_TABLE, rev, k);
    } else {
      assert forall i :: 0 <= i < |rev| ==> rev[i].id != Some(k);
    }
    assert forall i :: 0 <= i < |rev| ==> rs[i] == rev[i];
    assert forall i :: 0 <= i < |exp| ==> rs[|rev| + i] == exp[i];
    var n := Collect(rev, exp).byId[k].numImages;
    if n != 0.0 {
      var m := if k in mid.byId then mid.byId[k].numImages else 0.0;
      if n == m && k in mid.byId {
        var i :| 0 <= i < |rev| && rev[i].id == Some(k) && rev[i].images == Some(m);
        assert rs[i] == rev[i];
        assert rs[i].id == Some(k) && rs[i].images == Some(n);
      } else if n != m {
        var i :| 0 <= i < |exp| && exp[i].id == Some(k) && exp[i].images == Some(n);
        assert rs[|rev| + i] == exp[i];
        assert rs[|rev| + i].id == Some(k) && rs[|rev| + i].images == Some(n);
      }
    }
  }

  // ---------------------------------------------------------------------------
  // Per-project buckets
  // ---------------------------------------------------------------------------

  /** What a reading adds to bucket `b` of the project `k`: its amount when it carries `k` and maps to `b`. */
  function ContributionFor(k: string, b: Bucket): Reading -> real
  {
    (r: Reading) => if r.id == Some(k) then Contribution(r, b) else 0.0
  }

  /** The readings of a loop that leaves `k` absent add nothing to `k`'s buckets. */
  lemma UnseenContributesNothing(t: Table, rs: seq<Reading>, k: string, b: Bucket)
    requires k !in Fold(t, rs).byId
    ensures SumOf(rs, ContributionFor(k, b)) == 0.0
  {
    FoldKeys(t, rs);
    forall x | x in rs
      ensures ContributionFor(k, b)(x) == 0.0
    {
      var i :| 0 <= i < |rs| && rs[i] == x;
      assert !SeenIn(rs, k);
    }
    SumOfZero(rs, ContributionFor(k, b));
  }

  /**
   * After a loop, each bucket of project `k` holds what it held before (0 for
   * a new project) plus the amounts of the loop's rows with id `k` mapped to it.
   */
  lemma {:induction false} FoldBucket(t: Table, rs: seq<Reading>, k: string, b: Bucket)
    requires k in Fold(t, rs).byId
    ensures Amount(Fold(t, rs).byId[k], b) ==
      (if k in t.byId then Amount(t.byId[k], b) else 0.0) + SumOf(rs, ContributionFor(k, b))
  {
    if rs == [] {
    } else {
      var init, last := rs[..|rs| - 1], rs[|rs| - 1];
      assert rs == init + [last];
      var mid := Fold(t, init);
      SumOfSnoc(init, last, ContributionFor(k, b));
      StepOthers(mid, last);
      if last.id == Some(k) {
        StepBuckets(mid, last, k, b);
        if k in mid.byId {
          FoldBucket(t, init, k, b);
        } else {
          UnseenContributesNothing(t, init, k, b);
          FoldKeys(t, init);
        }
      } else {
        FoldBucket(t, init, k, b);
      }
    }
  }

  /**
   * Each bucket of a listed project is the sum of the amounts of exactly the
   * rows of either tab that carry its id and map to that bucket.
   */
  lemma CollectBucket(rev: seq<Reading>, exp: seq<Reading>, k: string, b: Bucket)
    requires k in Collect(rev, exp).byId
    ensures Amount(Collect(rev, exp).byId[k], b) == SumOf(rev + exp, ContributionFor(k, b))
  {
    var mid := Fold(EMPTY_TABLE, rev);
    FoldBucket(mid, exp, k, b);
    if k in mid.byId {
      FoldBucket(EMPTY_TABLE, rev, k, b);
    } else {
      UnseenContributesNothing(EMPTY_TABLE, rev, k, b);
    }
    SumOfConcat(rev, exp, ContributionFor(k, b));
  }

  // ---------------------------------------------------------------------------
  // Ids that name inherited properties
  // ---------------------------------------------------------------------------

  /**
   * The property names every plain object inherits from `Object.prototype`
   * (section 20.1.3 of ECMA-262 and the accessors of its Annex B.2.2).
   */
  const PROTOTYPE_NAMES: set<string> := {
    "constructor", "hasOwnProperty", "isPrototypeOf", "propertyIsEnumerable",
    "toLocaleString", "toString", "valueOf", "__proto__",
    "__defineGetter__", "__defineSetter__", "__lookupGetter__", "__lookupSetter__"}

  /** The message of the `TypeError` raised by reading a property of `undefined`. */
  const UNDEFINED_READ: string := "Cannot read properties of undefined"

  /**
   * One iteration as the code is written, where `projects` is a plain object.
   * For an id never stored that names an inherited property, `projects[id]`
   * is that (truthy) property, so no project is created; the image guard
   * compares with `undefined` and is false; a mapped line item then reads
   * `revenue` (or `expenses`) of the inherited property, finds `undefined`,
   * and indexing it throws, which ends the request with status 500. Without
   * a mapped line item the row vanishes.
   */
  function StepAsWritten(t: Table, r: Reading): (u: Result<Table>)
    ensures r.id.None? ==> u == Success(t)
    ensures r.id.Some? && (r.id.value in t.byId || r.id.value !in PROTOTYPE_NAMES) ==> u == Success(Step(t, r))
    ensures r.id.Some? && r.id.value !in t.byId && r.id.value in PROTOTYPE_NAMES ==>
      (r.bucket.Some? ==> u.Failure?) && (r.bucket.None? ==> u == Success(t))
  {
    match r.id
    case None => Success(t)
    case Some(id) =>
      if id !in t.byId && id in PROTOTYPE_NAMES then
        if r.bucket.Some? then Failure(UNDEFINED_READ) else Success(t)
      else
        Success(Step(t, r))
  }

  /** A revenue row of project "constructor" with a mapped line item. */
  const CONSTRUCTOR_ROW: Reading :=
    Reading(Some("constructor"), "Acme", "Standard", "USA", "2024-03", Some(12.0), Some(Revenue(RevenueBucket.Travel)), 250.0)

  /**
   * As written, a first row whose id is "constructor" makes the request fail,
   * and one without a mapped line item is dropped from the table; `Step`, the
   * behaviour the rest of the model uses, stores and books it like any other id.
   */
  lemma PrototypeIdAsWritten()
    ensures StepAsWritten(EMPTY_TABLE, CONSTRUCTOR_ROW).Failure?
    ensures StepAsWritten(EMPTY_TABLE, CONSTRUCTOR_ROW.(bucket := None)) == Success(EMPTY_TABLE)
    ensures var t := Step(EMPTY_TABLE, CONSTRUCTOR_ROW);
      "constructor" in t.byId && t.byId["constructor"].revenue.travel == 250.0
  {
    assert "constructor" in PROTOTYPE_NAMES;
  }
}
