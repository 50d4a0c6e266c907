/**
 * The reconciliation loops as the handler runs them: a `projects` object
 * updated in place by `ensureProject` and by the revenue and expense loops,
 * then listed with `Object.values`. Every method is proved to perform the
 * update the functions of module `Aggregator` describe, so the properties
 * proved there hold for the response this code builds.
 */
module Reconciler {
  import opened Wrappers
  import opened Records
  import opened Dates
  import opened Aggregator

  /** The `projects` object: its entries and the order its keys were first assigned in. */
  class ProjectTable {
    var byId: map<string, Project>
    var order: seq<string>

    function State(): Table
      reads this
    {
      Table(byId, order)
    }

    ghost predicate Valid()
      reads this
    {
      TableInvariant(State())
    }

    /** `const projects = {}`. */
    constructor ()
      ensures Valid() && State() == EMPTY_TABLE
    {
      byId := map[];
      order := [];
    }

    /** `ensureProject`: the row's id, after creating its project if the id is new. */
    method EnsureProject(r: Reading) returns (id: Option<string>)
      requires Valid()
      modifies this
      ensures Valid()
      ensures id == r.id
      ensures State() == if r.id.Some? then Ensure(old(State()), r, r.id.value) else old(State())
    {
      id := r.id;
      if id.Some? {
        var k := id.value;
        if k !in byId {
          AppendDistinct(order, k);
          byId := byId[k := NewProject(r, k)];
          order := order + [k];
        }
      }
    }

    /**
     * The body of either loop once the row's cells are read: skip a row
     * without an id, raise the image count, add the amount to the mapped bucket.
     */
    method Apply(r: Reading)
      requires Valid()
      modifies this
      ensures Valid()
      ensures State() == Step(old(State()), r)
    {
      StepInvariant(State(), r);
      var id := EnsureProject(r);
      if id.None? {
        return;
      }
      var k := id.value;
      var imgs := r.images;
      if imgs.Some? && imgs.value > byId[k].numImages {
        byId := byId[k := byId[k].(numImages := imgs.value)];
      }
      match r.bucket {
        case None =>
        case Some(Revenue(b)) =>
          byId := byId[k := byId[k].(revenue := byId[k].revenue.Add(b, r.amount))];
        case Some(Expense(b)) =>
          byId := byId[k := byId[k].(expenses := byId[k].expenses.Add(b, r.amount))];
      }
    }

    /** One iteration of the revenue loop (`sheet == RevenueSheet`) or of the expense loop. */
    method AddRow(parse: DateParser, sheet: Sheet, row: Row)
      requires Valid()
      modifies this
      ensures Valid()
      ensures State() == Step(old(State()), Read(parse, sheet, row))
    {
      var r := Read(parse, sheet, row);
      Apply(r);
    }

    /** `for (const row of rows) { ... }` over one tab. */
    method AddRows(parse: DateParser, sheet: Sheet, rows: seq<Row>)
      requires Valid()
      modifies this
      ensures Valid()
      ensures State() == Fold(old(State()), ReadAll(parse, sheet, rows))
    {
      ghost var start := State();
      ghost var rs := ReadAll(parse, sheet, rows);
      for i := 0 to |rows|
        invariant Valid()
        invariant State() == Fold(start, rs[..i])
      {
        AddRow(parse, sheet, rows[i]);
        FoldPrefix(start, rs, i);
      }
      assert rs[..|rows|] == rs;
    }
  }

  /** The handler's work between fetching the tabs and answering: the `projects` it returns. */
  method ReconcileSheets(parse: DateParser, revenueRows: seq<Row>, expenseRows: seq<Row>)
    returns (projects: seq<Project>, count: nat)
    ensures projects == Reconcile(parse, revenueRows, expenseRows)
    ensures count == |projects|
  {
    var table := new ProjectTable();
    table.AddRows(parse, RevenueSheet, revenueRows);
    table.AddRows(parse, ExpenseSheet, expenseRows);
    FinalInvariant(parse, revenueRows, expenseRows);
    projects := Values(table.State());
    count := |projects|;
  }
}
