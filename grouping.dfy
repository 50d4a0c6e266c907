/**
 * `GroupedAnalysis`: the filtered projects bucketed by partner, product or
 * country into a dictionary built in place, one summary per bucket in
 * `Object.entries` order, then sorted by descending revenue.
 */
module Grouping {
  import opened Seqs
  import opened Records
  import opened Metrics
  import opened JsObjects
  import opened Classes

  /** The `groupBy` choices of the dashboard. */
  datatype GroupField = ByPartner | ByProduct | ByCountry

  /** `p[groupBy]`. */
  function FieldOf(field: GroupField, p: Project): string
  {
    match field
    case ByPartner => p.partner
    case ByProduct => p.product
    case ByCountry => p.country
  }

  function KeyOf(field: GroupField): Project -> string
  {
    p => FieldOf(field, p)
  }

  /** The projects of `data` whose field is `k`, in order. */
  function Members(data: seq<Project>, field: GroupField, k: string): seq<Project>
  {
    ClassMembers(data, KeyOf(field), k)
  }

  /** `data.forEach(p => { const k = p[groupBy]; (map[k] = map[k] || []).push(p); })`, with the order its keys are created in. */
  method Bucket(data: seq<Project>, field: GroupField) returns (members: map<string, seq<Project>>, keys: seq<string>)
    ensures members == ClassMap(data, KeyOf(field))
    ensures keys == ClassKeys(data, KeyOf(field))
  {
    members := map[];
    keys := [];
    for i := 0 to |data|
      invariant members == ClassMap(data[..i], KeyOf(field))
      invariant keys == ClassKeys(data[..i], KeyOf(field))
    {
      var p := data[i];
      var k := FieldOf(field, p);
      ClassMapSnoc(data[..i], KeyOf(field), p);
      ClassKeysSnoc(data[..i], KeyOf(field), p);
      assert data[..i + 1] == data[..i] + [p];
      if k !in members {
        members := members[k := []];
        keys := keys + [k];
      }
      members := members[k := members[k] + [p]];
    }
    assert data[..|data|] == data;
  }

  /** The accumulator of a group's reduce. */
  datatype Agg = Agg(rev: real, exp: real, imgs: real, cnt: nat)

  function AddToGroup(a: Agg, p: Project): Agg
  {
    var t := CalcTotals(p);
    Agg(a.rev + t.totalRevenue, a.exp + t.totalExpenses, a.imgs + p.numImages, a.cnt + 1)
  }

  /** The reduce over a group's projects from the accumulator `a`, left to right. */
  function Accumulate(a: Agg, ps: seq<Project>): (r: Agg)
    ensures r.rev == a.rev + SumOf(ps, ProjectRevenue)
    ensures r.exp == a.exp + SumOf(ps, ProjectExpenses)
    ensures r.imgs == a.imgs + SumOf(ps, ProjectImages)
    ensures r.cnt == a.cnt + |ps|
    decreases |ps|
  {
    if ps == [] then a else Accumulate(AddToGroup(a, ps[0]), ps[1..])
  }

  /** One row of the grouped view. */
  datatype Group = Group(
    key: string,
    rev: real,
    exp: real,
    imgs: real,
    cnt: nat,
    margin: real,
    marginPct: real,
    revPerImg: real,
    expPerImg: real)

  /** A group's row from its sums: the ratios are 0 where their denominator is not positive. */
  function GroupRow(key: string, a: Agg): (g: Group)
    ensures g.key == key && g.rev == a.rev && g.exp == a.exp && g.imgs == a.imgs && g.cnt == a.cnt
    ensures g.margin == g.rev - g.exp
    ensures g.rev <= 0.0 ==> g.marginPct == 0.0
    ensures g.rev > 0.0 ==> g.marginPct * g.rev == g.margin * 100.0
    ensures g.imgs <= 0.0 ==> g.revPerImg == 0.0 && g.expPerImg == 0.0
    ensures g.imgs > 0.0 ==> g.revPerImg * g.imgs == g.rev && g.expPerImg * g.imgs == g.exp
  {
    var margin := a.rev - a.exp;
    Group(key, a.rev, a.exp, a.imgs, a.cnt, margin, Percent(margin, a.rev), PerUnit(a.rev, a.imgs), PerUnit(a.exp, a.imgs))
  }

  /** The `.map` callback over one entry: the row of the sums over the group's projects. */
  function Summarize(key: string, ps: seq<Project>): (g: Group)
    ensures g == GroupRow(key, Agg(g.rev, g.exp, g.imgs, g.cnt))
    ensures g.key == key && g.cnt == |ps|
    ensures g.rev == SumOf(ps, ProjectRevenue) && g.exp == SumOf(ps, ProjectExpenses) && g.imgs == SumOf(ps, ProjectImages)
  {
    GroupRow(key, Accumulate(Agg(0.0, 0.0, 0.0, 0), ps))
  }

  /** The summaries of the entries `keys` of the dictionary, in that order. */
  function Summaries(keys: seq<string>, members: map<string, seq<Project>>): (r: seq<Group>)
    requires forall k :: k in keys ==> k in members
    ensures |r| == |keys| && forall i :: 0 <= i < |keys| ==> r[i] == Summarize(keys[i], members[keys[i]])
  {
    seq(|keys|, i requires 0 <= i < |keys| => Summarize(keys[i], members[keys[i]]))
  }

  /** The sort key of `(a, b) => b.rev - a.rev`: ascending in it is descending in revenue. */
  function NegatedRevenue(g: Group): real
  {
    -g.rev
  }

  function GroupRevenue(g: Group): real
  {
    g.rev
  }

  function GroupExpenses(g: Group): real
  {
    g.exp
  }

  function GroupCount(g: Group): real
  {
    g.cnt as real
  }

  function One(p: Project): real
  {
    1.0
  }

  lemma {:induction false} SumOfOne(ps: seq<Project>)
    ensures SumOf(ps, One) == |ps| as real
  {
    if ps != [] {
      SumOfOne(ps[1..]);
    }
  }

  function GroupKey(g: Group): string
  {
    g.key
  }

  /** The dictionary after bucketing `data`, listed through `entries`: every class once. */
  ghost predicate Listed(data: seq<Project>, field: GroupField, entries: seq<string>, members: map<string, seq<Project>>)
  {
    && Distinct(entries)
    && (forall k :: k in entries <==> k in MapSeq(data, KeyOf(field)))
    && (forall k :: k in entries ==> k in members && members[k] == Members(data, field, k))
  }

  /** Every project's field is one of the entries. */
  lemma EntriesCover(data: seq<Project>, field: GroupField, entries: seq<string>, members: map<string, seq<Project>>)
    requires Listed(data, field, entries, members)
    ensures forall x :: x in data ==> KeyOf(field)(x) in entries
  {
    forall x | x in data
      ensures KeyOf(field)(x) in entries
    {
      KeyOccurs(data, KeyOf(field), x);
    }
  }

  /**
   * Summed over the groups in any order, a group figure that totals the
   * figure `f` of its members gives the total of `f` over the whole of `data`.
   */
  lemma GroupsTotal(data: seq<Project>, field: GroupField, entries: seq<string>, members: map<string, seq<Project>>,
                    groups: seq<Group>, f: Project -> real, gf: Group -> real)
    requires Listed(data, field, entries, members)
    requires forall k :: k in entries ==> gf(Summarize(k, members[k])) == SumOf(members[k], f)
    requires multiset(groups) == multiset(Summaries(entries, members))
    ensures SumOf(groups, gf) == SumOf(data, f)
  {
    var unsorted := Summaries(entries, members);
    SumOfPermutation(groups, unsorted, gf);
    SumOfCorrespond(unsorted, entries, gf, ClassSum(data, KeyOf(field), f));
    EntriesCover(data, field, entries, members);
    SumOfClasses(data, KeyOf(field), entries, f);
  }

  /** The counts, revenues and expenses of the groups add up to those of `data`. */
  lemma GroupSums(data: seq<Project>, field: GroupField, entries: seq<string>, members: map<string, seq<Project>>,
                  groups: seq<Group>)
    requires Listed(data, field, entries, members)
    requires multiset(groups) == multiset(Summaries(entries, members))
    ensures SumOf(groups, GroupCount) == |data| as real
    ensures SumOf(groups, GroupRevenue) == SumOf(data, ProjectRevenue)
    ensures SumOf(groups, GroupExpenses) == SumOf(data, ProjectExpenses)
  {
    forall k | k in entries
      ensures GroupCount(Summarize(k, members[k])) == SumOf(members[k], One)
    {
      SumOfOne(members[k]);
    }
    GroupsTotal(data, field, entries, members, groups, One, GroupCount);
    SumOfOne(data);
    GroupsTotal(data, field, entries, members, groups, ProjectRevenue, GroupRevenue);
    GroupsTotal(data, field, entries, members, groups, ProjectExpenses, GroupExpenses);
  }

  /** The summaries carry the entries as their keys. */
  lemma SummaryKeys(entries: seq<string>, members: map<string, seq<Project>>)
    requires forall k :: k in entries ==> k in members
    ensures MapSeq(Summaries(entries, members), GroupKey) == entries
  {
  }

  /** Each group of a reordering of the summaries is the summary of its own key's class. */
  lemma GroupsAreSummaries(data: seq<Project>, field: GroupField, entries: seq<string>, members: map<string, seq<Project>>,
                           groups: seq<Group>)
    requires Listed(data, field, entries, members)
    requires multiset(groups) == multiset(Summaries(entries, members))
    ensures forall i :: 0 <= i < |groups| ==> groups[i] == Summarize(groups[i].key, Members(data, field, groups[i].key))
  {
    var unsorted := Summaries(entries, members);
    forall i | 0 <= i < |groups|
      ensures groups[i] == Summarize(groups[i].key, Members(data, field, groups[i].key))
    {
      PermutedElement(groups, unsorted, i);
      var a :| 0 <= a < |unsorted| && unsorted[a] == groups[i];
      assert unsorted[a] == Summarize(entries[a], members[entries[a]]);
    }
  }

  /** A reordering of the summaries has one group per class, each the summary of that class. */
  lemma GroupKeys(data: seq<Project>, field: GroupField, entries: seq<string>, members: map<string, seq<Project>>,
                  groups: seq<Group>)
    requires Listed(data, field, entries, members)
    requires multiset(groups) == multiset(Summaries(entries, members))
    ensures forall i, j :: 0 <= i < j < |groups| ==> groups[i].key != groups[j].key
    ensures forall k :: (exists i :: 0 <= i < |groups| && groups[i].key == k) <==> k in MapSeq(data, KeyOf(field))
    ensures forall i :: 0 <= i < |groups| ==> groups[i] == Summarize(groups[i].key, Members(data, field, groups[i].key))
  {
    var unsorted := Summaries(entries, members);
    SummaryKeys(entries, members);
    PermutedKeysDistinct(groups, unsorted, GroupKey);
    PermutedKeys(groups, unsorted, GroupKey);
    GroupsAreSummaries(data, field, entries, members, groups);
  }

  /** Sorted by the negated revenue is highest revenue first. */
  lemma DescendingRevenue(groups: seq<Group>)
    requires SortedBy(groups, NegatedRevenue)
    ensures forall i, j :: 0 <= i < j < |groups| ==> groups[i].rev >= groups[j].rev
  {
    forall i, j | 0 <= i < j < |groups|
      ensures groups[i].rev >= groups[j].rev
    {
      assert NegatedRevenue(groups[i]) <= NegatedRevenue(groups[j]);
    }
  }

  /** `Object.entries(map)`: the keys of the dictionary, each once. */
  lemma EntriesListed(data: seq<Project>, field: GroupField)
    ensures Listed(data, field, OwnKeys(ClassKeys(data, KeyOf(field))), ClassMap(data, KeyOf(field)))
  {
    PermutedClassKeys(data, KeyOf(field), OwnKeys(ClassKeys(data, KeyOf(field))));
  }

  /** `grouped`: one row per value of the field, highest revenue first. */
  method GroupedAnalysis(data: seq<Project>, field: GroupField) returns (groups: seq<Group>)
    ensures forall i, j :: 0 <= i < j < |groups| ==> groups[i].rev >= groups[j].rev
    ensures forall i, j :: 0 <= i < j < |groups| ==> groups[i].key != groups[j].key
    ensures forall k :: (exists i :: 0 <= i < |groups| && groups[i].key == k) <==> k in MapSeq(data, KeyOf(field))
    ensures forall i :: 0 <= i < |groups| ==> groups[i] == Summarize(groups[i].key, Members(data, field, groups[i].key))
    ensures SumOf(groups, GroupCount) == |data| as real
    ensures SumOf(groups, GroupRevenue) == SumOf(data, ProjectRevenue)
    ensures SumOf(groups, GroupExpenses) == SumOf(data, ProjectExpenses)
  {
    var members, keys := Bucket(data, field);
    EntriesListed(data, field);
    var entries := OwnKeys(keys);
    var unsorted := Summaries(entries, members);
    groups := SortBy(unsorted, NegatedRevenue);
    DescendingRevenue(groups);
    GroupKeys(data, field, entries, members, groups);
    GroupSums(data, field, entries, members, groups);
  }
}
