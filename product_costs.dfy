/**
 * The data behind the expense-per-image chart: a tally of projects per
 * product built in place, the ten most frequent products, and for each of
 * them the core and variable expenses per image.
 */
module ProductCosts {
  import opened Wrappers
  import opened Seqs
  import opened Records
  import opened Metrics
  import opened JsObjects
  import opened Classes

  function ProductOf(p: Project): string
  {
    p.product
  }

  function PartnerOf(p: Project): string
  {
    p.partner
  }

  /** The projects of one product, in order. */
  function OfProduct(projects: seq<Project>, prod: string): seq<Project>
  {
    ClassMembers(projects, ProductOf, prod)
  }

  /** The tally once every project is counted: the projects of each product and the partner of its last one. */
  function ProductCounts(projects: seq<Project>): map<string, nat>
  {
    CountMap(ClassMap(projects, ProductOf))
  }

  function LastPartners(projects: seq<Project>): map<string, string>
  {
    LastMap(ClassMap(projects, ProductOf), PartnerOf)
  }

  /**
   * `projects.forEach(p => { productCounts[p.product] = (productCounts[p.product] || 0) + 1;
   * productPartner[p.product] = p.partner; })`, with the order the keys of
   * `productCounts` are created in.
   */
  method TallyProducts(projects: seq<Project>) returns (counts: map<string, nat>, partners: map<string, string>, keys: seq<string>)
    ensures counts == ProductCounts(projects)
    ensures partners == LastPartners(projects)
    ensures keys == ClassKeys(projects, ProductOf)
  {
    counts := map[];
    partners := map[];
    keys := [];
    for i := 0 to |projects|
      invariant counts == ProductCounts(projects[..i])
      invariant partners == LastPartners(projects[..i])
      invariant keys == ClassKeys(projects[..i], ProductOf)
    {
      var p := projects[i];
      var k := p.product;
      TallyAt(projects, i);
      if k !in counts {
        keys := keys + [k];
      }
      counts := Bump(counts, k);
      partners := partners[k := p.partner];
    }
    assert projects[..|projects|] == projects;
  }

  /** `productCounts[k] = (productCounts[k] || 0) + 1`. */
  function Bump(c: map<string, nat>, k: string): map<string, nat>
  {
    c[k := (if k in c then c[k] else 0) + 1]
  }

  /** Iteration `i` of the tally, counting `projects[i]`. */
  lemma TallyAt(projects: seq<Project>, i: nat)
    requires i < |projects|
    ensures ProductCounts(projects[..i + 1]) == Bump(ProductCounts(projects[..i]), projects[i].product)
    ensures LastPartners(projects[..i + 1]) == LastPartners(projects[..i])[projects[i].product := projects[i].partner]
    ensures ClassKeys(projects[..i + 1], ProductOf) ==
      if projects[i].product in ProductCounts(projects[..i]) then ClassKeys(projects[..i], ProductOf)
      else ClassKeys(projects[..i], ProductOf) + [projects[i].product]
  {
    var prefix, p := projects[..i], projects[i];
    assert projects[..i + 1] == prefix + [p];
    TallyStep(prefix, p);
  }

  /** One iteration of the tally. */
  lemma TallyStep(prefix: seq<Project>, p: Project)
    ensures ProductCounts(prefix + [p]) == Bump(ProductCounts(prefix), p.product)
    ensures LastPartners(prefix + [p]) == LastPartners(prefix)[p.product := p.partner]
    ensures ClassKeys(prefix + [p], ProductOf) ==
      if p.product in ProductCounts(prefix) then ClassKeys(prefix, ProductOf) else ClassKeys(prefix, ProductOf) + [p.product]
  {
    var m := ClassMap(prefix, ProductOf);
    ClassMapSnoc(prefix, ProductOf, p);
    ClassKeysSnoc(prefix, ProductOf, p);
    CountMapPushed(m, p.product, p);
    LastMapPushed(m, PartnerOf, p.product, p);
  }

  /**
   * The tally counts, for every product that occurs and no other, how many
   * projects have it, and keeps the partner of the last of them.
   */
  lemma TallyMeaning(projects: seq<Project>)
    ensures forall k :: k in ProductCounts(projects) <==> k in MapSeq(projects, ProductOf)
    ensures forall k :: k in ProductCounts(projects) ==> ProductCounts(projects)[k] == |OfProduct(projects, k)|
    ensures forall k :: k in LastPartners(projects) <==> k in ProductCounts(projects)
    ensures forall k :: k in LastPartners(projects) ==> OfProduct(projects, k) != [] && LastPartners(projects)[k] == Last(OfProduct(projects, k)).partner
  {
    CountMapMeaning(projects, ProductOf);
    LastMapMeaning(projects, ProductOf, PartnerOf);
  }

  // ---------------------------------------------------------------------------
  // The ten most frequent products
  // ---------------------------------------------------------------------------

  /** The sort key of `(a, b) => b[1] - a[1]`: ascending in it is descending in count. */
  function NegCount(counts: map<string, nat>): string -> real
  {
    k => if k in counts then -(counts[k] as real) else 0.0
  }

  const TOP_N: nat := 10

  /** `Object.entries(productCounts).sort((a, b) => b[1] - a[1]).slice(0, 10).map(([k]) => k)`. */
  function TopProducts(counts: map<string, nat>, keys: seq<string>): seq<string>
  {
    TakeSorted(OwnKeys(keys), NegCount(counts), TOP_N)
  }

  /**
   * A choice of the most frequent products: different counted products, ten
   * (or all when fewer are counted), the most frequent first, and no product
   * left out counted more often than any product chosen.
   */
  predicate TopChoice(counts: map<string, nat>, r: seq<string>)
  {
    && |r| == (if |counts| < TOP_N then |counts| else TOP_N)
    && (forall i, j :: 0 <= i < j < |r| ==> r[i] != r[j])
    && (forall i :: 0 <= i < |r| ==> r[i] in counts)
    && (forall i, j :: 0 <= i < j < |r| ==> counts[r[i]] >= counts[r[j]])
    && (forall k :: k in counts && k !in r ==> forall i :: 0 <= i < |r| ==> counts[k] <= counts[r[i]])
  }

  /** From a tally whose key list names each counted product once, the chart's choice is a top choice. */
  lemma TopSpec(counts: map<string, nat>, keys: seq<string>)
    requires Distinct(keys) && |keys| == |counts| && forall k :: k in keys <==> k in counts
    ensures TopChoice(counts, TopProducts(counts, keys))
  {
    var entries := OwnKeys(keys);
    OwnKeysDistinct(keys);
    PermutedMembers(entries, keys);
    ChoiceFrom(counts, entries);
  }

  /** Sorting the tally's entries by count and taking ten gives a top choice. */
  lemma ChoiceFrom(counts: map<string, nat>, entries: seq<string>)
    requires Distinct(entries) && |entries| == |counts| && forall k :: k in entries <==> k in counts
    ensures TopChoice(counts, TakeSorted(entries, NegCount(counts), TOP_N))
  {
    var r := TakeSorted(entries, NegCount(counts), TOP_N);
    ChoicePicks(counts, entries);
    TakeSortedSpec(entries, NegCount(counts), TOP_N);
    TopOrder(counts, entries, r);
  }

  /** Ten (or all) different counted products are taken. */
  lemma ChoicePicks(counts: map<string, nat>, entries: seq<string>)
    requires Distinct(entries) && |entries| == |counts| && forall k :: k in entries <==> k in counts
    ensures var r := TakeSorted(entries, NegCount(counts), TOP_N);
      && |r| == (if |counts| < TOP_N then |counts| else TOP_N)
      && (forall i, j :: 0 <= i < j < |r| ==> r[i] != r[j])
      && (forall i :: 0 <= i < |r| ==> r[i] in counts)
  {
    TakeSortedSpec(entries, NegCount(counts), TOP_N);
  }

  /** The count order of products picked ascending in `NegCount`, with what was left out above them. */
  lemma TopOrder(counts: map<string, nat>, entries: seq<string>, r: seq<string>)
    requires forall i :: 0 <= i < |r| ==> r[i] in counts
    requires forall k :: k in counts ==> k in entries
    requires SortedBy(r, NegCount(counts))
    requires forall x :: x in entries && x !in r ==> forall i :: 0 <= i < |r| ==> NegCount(counts)(r[i]) <= NegCount(counts)(x)
    ensures forall i, j :: 0 <= i < j < |r| ==> counts[r[i]] >= counts[r[j]]
    ensures forall k :: k in counts && k !in r ==> forall i :: 0 <= i < |r| ==> counts[k] <= counts[r[i]]
  {
    forall i, j | 0 <= i < j < |r|
      ensures counts[r[i]] >= counts[r[j]]
    {
      assert NegCount(counts)(r[i]) <= NegCount(counts)(r[j]);
    }
    forall k, i | k in counts && k !in r && 0 <= i < |r|
      ensures counts[k] <= counts[r[i]]
    {
      assert NegCount(counts)(r[i]) <= NegCount(counts)(k);
    }
  }

  /** The products the chart chooses from the tally of `projects`. */
  lemma TopProductsSpec(projects: seq<Project>)
    ensures var counts := ProductCounts(projects);
      TopChoice(counts, TopProducts(counts, ClassKeys(projects, ProductOf)))
  {
    ClassKeysCounted(projects, ProductOf);
    TopSpec(ProductCounts(projects), ClassKeys(projects, ProductOf));
  }

  // ---------------------------------------------------------------------------
  // Cost per image
  // ---------------------------------------------------------------------------

  /** `base + additionalDeliverables`. */
  function CoreCost(p: Project): real
  {
    p.expenses.base + p.expenses.additionalDeliverables
  }

  /** `lastMinuteReschedule + travel + other`. */
  function VariableCost(p: Project): real
  {
    p.expenses.lastMinuteReschedule + p.expenses.travel + p.expenses.other
  }

  /** A project's expenses are its core and its variable costs. */
  lemma ExpenseSplit(p: Project)
    ensures ProjectExpenses(p) == CoreCost(p) + VariableCost(p)
  {
  }

  /** A bar: the product, its last-seen partner, and its two stacked costs per image. */
  datatype CostBar = CostBar(product: string, partner: string, core: real, variable: real)

  /**
   * The `top10.map` callback: nothing when the product's image count sums
   * to zero, else a bar labelled with the product's last-seen partner.
   */
  function ProductBar(projects: seq<Project>, partners: map<string, string>, prod: string): (r: Option<CostBar>)
    ensures r.None? <==> SumOf(OfProduct(projects, prod), ProjectImages) == 0.0
    ensures r.Some? ==> r.value.product == prod && r.value.partner == (if prod in partners then partners[prod] else "")
  {
    var sub := OfProduct(projects, prod);
    var imgs := SumOf(sub, ProjectImages);
    if imgs == 0.0 then None
    else
      var partner := if prod in partners then partners[prod] else "";
      Some(CostBar(prod, partner, SumOf(sub, CoreCost) / imgs, SumOf(sub, VariableCost) / imgs))
  }

  lemma Quotients(c: real, v: real, n: real)
    requires n != 0.0
    ensures (c / n) * n == c && (v / n) * n == v && (c / n + v / n) * n == c + v
  {
  }

  /**
   * A bar's two stacked costs times the product's image count are its core
   * and its variable expenses, and together its whole expenses.
   */
  lemma BarCosts(projects: seq<Project>, partners: map<string, string>, prod: string)
    requires ProductBar(projects, partners, prod).Some?
    ensures var bar := ProductBar(projects, partners, prod).value;
      var sub := OfProduct(projects, prod);
      var imgs := SumOf(sub, ProjectImages);
      && bar.core * imgs == SumOf(sub, CoreCost)
      && bar.variable * imgs == SumOf(sub, VariableCost)
      && (bar.core + bar.variable) * imgs == SumOf(sub, ProjectExpenses)
  {
    var sub := OfProduct(projects, prod);
    var imgs := SumOf(sub, ProjectImages);
    Quotients(SumOf(sub, CoreCost), SumOf(sub, VariableCost), imgs);
    forall x | x in sub
      ensures ProjectExpenses(x) == CoreCost(x) + VariableCost(x)
    {
      ExpenseSplit(x);
    }
    SumOfAdd(sub, ProjectExpenses, CoreCost, VariableCost);
  }

  function BarOf(projects: seq<Project>, partners: map<string, string>): string -> Option<CostBar>
  {
    prod => ProductBar(projects, partners, prod)
  }

  /** `top10.map(...).filter(Boolean)`: the bars of the products with a non-zero image count, in order. */
  function Bars(projects: seq<Project>, partners: map<string, string>, prods: seq<string>): seq<CostBar>
  {
    Present(prods, BarOf(projects, partners))
  }

  /** The chart's data: the bars of the most frequent products, in descending order of project count. */
  function ExpensePerImageData(projects: seq<Project>): seq<CostBar>
  {
    Bars(projects, LastPartners(projects), TopProducts(ProductCounts(projects), ClassKeys(projects, ProductOf)))
  }

  /** The tally, the selection and the bars, as the component runs them. */
  method ExpensePerImage(projects: seq<Project>) returns (bars: seq<CostBar>)
    ensures bars == ExpensePerImageData(projects)
  {
    var counts, partners, keys := TallyProducts(projects);
    var top := TopProducts(counts, keys);
    bars := Bars(projects, partners, top);
  }

  /** Each bar is that of one of the products given, and each product given with a non-zero image count has its bar. */
  lemma BarsSpec(projects: seq<Project>, partners: map<string, string>, prods: seq<string>)
    ensures var bars := Bars(projects, partners, prods);
      && |bars| <= |prods|
      && (forall b :: b in bars ==> b.product in prods && ProductBar(projects, partners, b.product) == Some(b))
      && (forall prod :: prod in prods && SumOf(OfProduct(projects, prod), ProjectImages) != 0.0 ==>
            exists b :: b in bars && b.product == prod)
  {
    var bars := Bars(projects, partners, prods);
    forall b | b in bars
      ensures b.product in prods && ProductBar(projects, partners, b.product) == Some(b)
    {
      var j :| 0 <= j < |prods| && BarOf(projects, partners)(prods[j]) == Some(b);
    }
    forall prod | prod in prods && SumOf(OfProduct(projects, prod), ProjectImages) != 0.0
      ensures exists b :: b in bars && b.product == prod
    {
      var j :| 0 <= j < |prods| && prods[j] == prod;
      assert BarOf(projects, partners)(prods[j]).Some?;
    }
  }

  /**
   * At most ten bars; each is that of a chosen product whose image count is
   * not zero, labelled with the partner of its last project; and every chosen
   * product with a non-zero image count has its bar.
   */
  lemma ExpensePerImageSpec(projects: seq<Project>)
    ensures var bars := ExpensePerImageData(projects);
      var top := TopProducts(ProductCounts(projects), ClassKeys(projects, ProductOf));
      && |bars| <= TOP_N
      && (forall b :: b in bars ==> b.product in top && ProductBar(projects, LastPartners(projects), b.product) == Some(b))
      && (forall b :: b in bars ==> OfProduct(projects, b.product) != [] && b.partner == Last(OfProduct(projects, b.product)).partner)
      && (forall prod :: prod in top && SumOf(OfProduct(projects, prod), ProjectImages) != 0.0 ==>
            exists b :: b in bars && b.product == prod)
  {
    var partners := LastPartners(projects);
    var top := TopProducts(ProductCounts(projects), ClassKeys(projects, ProductOf));
    TopProductsSpec(projects);
    TallyMeaning(projects);
    forall prod | prod in top
      ensures prod in partners && OfProduct(projects, prod) != [] && partners[prod] == Last(OfProduct(projects, prod)).partner
    {
    }
    BarsSpec(projects, partners, top);
    LabelledBars(projects, partners, top);
  }

  /** Bars of products whose recorded partner is that of their last project carry that partner. */
  lemma LabelledBars(projects: seq<Project>, partners: map<string, string>, prods: seq<string>)
    requires forall prod :: prod in prods ==>
      prod in partners && OfProduct(projects, prod) != [] && partners[prod] == Last(OfProduct(projects, prod)).partner
    ensures forall b :: b in Bars(projects, partners, prods) ==>
      OfProduct(projects, b.product) != [] && b.partner == Last(OfProduct(projects, b.product)).partner
  {
    BarsSpec(projects, partners, prods);
  }
}
