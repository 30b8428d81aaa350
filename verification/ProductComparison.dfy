/** The product x branch comparison: a paged roster of products over the selected branches,
    joined with per-branch cells through a string-keyed index. */
module ProductComparison {
  import opened Options
  import opened Sums
  import opened Text

  /** A sale line with what the filters look at; revenue in cents, quantity in thousandths. */
  datatype SaleItem = SaleItem(
    product: string, branch: string, isSale: bool, saleVoided: bool, itemVoided: bool, at: int,
    revenue: int, quantity: int)

  /** `found`: the products the search term matches, if there is a term. */
  datatype Params = Params(branches: seq<string>, start: int, end: int, found: Option<set<string>>, byQuantity: bool)

  datatype RosterEntry = RosterEntry(product: string, name: string, revenue: int, quantity: int)

  datatype Breakdown = Breakdown(product: string, branch: string, revenue: int, quantity: int)

  datatype Cell = Cell(branch: string, revenue: int, quantity: int)

  datatype Row = Row(product: string, name: string, totalRevenue: int, totalQuantity: int, perBranch: seq<Cell>)

  datatype BranchError = NoBranchRequested | ManagerWithoutBranch | BranchNotFound

  datatype Resolved = Branches(ids: seq<string>) | Refused(error: BranchError)

  /** `Array.from(new Set(ids))`. */
  function Unique(ids: seq<string>): (u: seq<string>)
    ensures Distinct(u) && forall id :: id in u <==> id in ids
  {
    if ids == [] then []
    else
      var init, last := ids[..|ids| - 1], ids[|ids| - 1];
      if last in init then Unique(init) else Unique(init) + [last]
  }

  /** Which branches a comparison covers: a manager's own branch is always first. */
  function ResolveBranches(
      isManager: bool, ownBranch: Option<string>, requested: seq<string>, existing: set<string>): (r: Resolved)
    ensures r.Branches? ==> r.ids != [] && Distinct(r.ids) && forall id | id in r.ids :: id in existing
  {
    if isManager && ownBranch.None? then Refused(ManagerWithoutBranch)
    else if !isManager && requested == [] then Refused(NoBranchRequested)
    else
      var ids := Unique((if isManager then [ownBranch.value] else []) + requested);
      if forall id | id in ids :: id in existing then
        assert forall id | id in requested :: id in ids;
        assert isManager ==> ownBranch.value in ids;
        assert requested != [] ==> requested[0] in ids;
        Branches(ids)
      else Refused(BranchNotFound)
  }

  lemma {:induction false} UniqueKeepsFirst(ids: seq<string>)
    requires ids != []
    ensures Unique(ids) != [] && Unique(ids)[0] == ids[0]
  {
    if |ids| > 1 {
      UniqueKeepsFirst(ids[..|ids| - 1]);
    } else {
      assert ids[..0] == [];
    }
  }

  lemma {:induction false} UniqueOfDistinct(ids: seq<string>)
    requires Distinct(ids)
    ensures Unique(ids) == ids
  {
    if ids != [] {
      var init, last := ids[..|ids| - 1], ids[|ids| - 1];
      UniqueOfDistinct(init);
      assert ids == init + [last] && last !in init;
    }
  }

  /** An admin's comparison is accepted exactly when some branch is named and all exist, and keeps
      the order of branches that are named once. */
  lemma {:induction false} AdminBranches(own: Option<string>, requested: seq<string>, existing: set<string>)
    ensures var r := ResolveBranches(false, own, requested, existing);
            && (r.Branches? <==> requested != [] && forall id | id in requested :: id in existing)
            && (r.Refused? ==> r.error == if requested == [] then NoBranchRequested else BranchNotFound)
            && (r.Branches? && Distinct(requested) ==> r.ids == requested)
            && (r.Branches? ==> forall id :: id in r.ids <==> id in requested)
  {
    assert [] + requested == requested;
    if Distinct(requested) {
      UniqueOfDistinct(requested);
    }
  }

  lemma ManagerBranchComesFirst(own: string, requested: seq<string>, existing: set<string>)
    ensures var r := ResolveBranches(true, Some(own), requested, existing);
            (r.Branches? <==> own in existing && forall id | id in requested :: id in existing)
            && (r.Branches? ==> r.ids[0] == own && forall id :: id in r.ids <==> id == own || id in requested)
            && (r.Refused? ==> r.error == BranchNotFound)
    ensures ResolveBranches(true, None, requested, existing) == Refused(ManagerWithoutBranch)
  {
    UniqueKeepsFirst([own] + requested);
    assert forall id :: id in [own] + requested <==> id == own || id in requested;
  }

  function BaseFilter(p: Params): SaleItem -> bool {
    (i: SaleItem) => i.branch in p.branches && i.isSale && !i.saleVoided && !i.itemVoided && p.start <= i.at <= p.end
  }

  /** The base filter joined with the products, and their search. */
  function RosterFilter(p: Params, names: map<string, string>): SaleItem -> bool {
    (i: SaleItem) => BaseFilter(p)(i) && i.product in names && (p.found.Some? ==> i.product in p.found.value)
  }

  const PRODUCT_OF: SaleItem -> string := (i: SaleItem) => i.product
  const BRANCH_OF: SaleItem -> string := (i: SaleItem) => i.branch

  datatype Measure = Revenue | Quantity

  function Value(m: Measure): SaleItem -> int {
    (i: SaleItem) => if m.Revenue? then i.revenue else i.quantity
  }

  function CellSum(items: seq<SaleItem>, p: Params, product: string, branch: string, m: Measure): int {
    Sum(items, Having(Having(BaseFilter(p), PRODUCT_OF, product), BRANCH_OF, branch), Value(m))
  }

  // The roster.

  function EntryValue(e: RosterEntry, m: Measure): int {
    if m.Revenue? then e.revenue else e.quantity
  }

  /** An entry is one GROUP BY row of the roster query. */
  ghost predicate IsEntry(items: seq<SaleItem>, p: Params, names: map<string, string>, e: RosterEntry) {
    && (exists i | 0 <= i < |items| :: RosterFilter(p, names)(items[i]) && items[i].product == e.product)
    && e.product in names && e.name == names[e.product]
    && (forall m: Measure :: EntryValue(e, m) == Sum(items, Having(RosterFilter(p, names), PRODUCT_OF, e.product), Value(m)))
  }

  function SortValue(p: Params, e: RosterEntry): int {
    if p.byQuantity then e.quantity else e.revenue
  }

  /** ORDER BY sort value DESC, name ASC. */
  predicate MayPrecede(p: Params, e: RosterEntry, f: RosterEntry) {
    SortValue(p, e) > SortValue(p, f) || (SortValue(p, e) == SortValue(p, f) && !LexLess(f.name, e.name))
  }

  predicate Ordered(p: Params, roster: seq<RosterEntry>) {
    forall i, j | 0 <= i < j < |roster| :: MayPrecede(p, roster[i], roster[j])
  }

  function Products(roster: seq<RosterEntry>): (ids: seq<string>)
    ensures |ids| == |roster| && forall i | 0 <= i < |ids| :: ids[i] == roster[i].product
  {
    seq(|roster|, i requires 0 <= i < |roster| => roster[i].product)
  }

  /** A complete answer to the roster query, in one of the orders the database may choose. */
  ghost predicate IsRoster(items: seq<SaleItem>, p: Params, names: map<string, string>, roster: seq<RosterEntry>) {
    && (forall k | 0 <= k < |roster| :: IsEntry(items, p, names, roster[k]))
    && (forall i | 0 <= i < |items| && RosterFilter(p, names)(items[i]) :: items[i].product in Products(roster))
    && Distinct(Products(roster))
    && Ordered(p, roster)
  }

  // The breakdown, and the rows assembled from both.

  predicate SamePair(a: Breakdown, b: Breakdown) {
    a.product == b.product && a.branch == b.branch
  }

  /** An answer to the breakdown query for some products: one row a (product, branch) group, in any order. */
  ghost predicate IsBreakdown(items: seq<SaleItem>, p: Params, products: seq<string>, rows: seq<Breakdown>) {
    && (forall k | 0 <= k < |rows| ::
          rows[k].product in products
          && rows[k].revenue == CellSum(items, p, rows[k].product, rows[k].branch, Revenue)
          && rows[k].quantity == CellSum(items, p, rows[k].product, rows[k].branch, Quantity))
    && (forall j, k | 0 <= j < k < |rows| :: !SamePair(rows[j], rows[k]))
    && (forall i | 0 <= i < |items| && BaseFilter(p)(items[i]) && items[i].product in products ::
          exists k | 0 <= k < |rows| :: rows[k].product == items[i].product && rows[k].branch == items[i].branch)
  }

  function IndexKey(product: string, branch: string): string {
    product + ":" + branch
  }

  /** What `byKey.get(key)` finds: the last row that was set under the key. */
  function LastUnderKey(rows: seq<Breakdown>, key: string): Option<Breakdown> {
    if rows == [] then None
    else
      var last := rows[|rows| - 1];
      if IndexKey(last.product, last.branch) == key then Some(last) else LastUnderKey(rows[..|rows| - 1], key)
  }

  function CellFor(rows: seq<Breakdown>, product: string, branch: string): Cell {
    match LastUnderKey(rows, IndexKey(product, branch))
    case None => Cell(branch, 0, 0)
    case Some(b) => Cell(branch, b.revenue, b.quantity)
  }

  function CellsFor(rows: seq<Breakdown>, product: string, branches: seq<string>): (cells: seq<Cell>)
    ensures |cells| == |branches|
    ensures forall j | 0 <= j < |cells| :: cells[j] == CellFor(rows, product, branches[j])
  {
    if branches == [] then [] else [CellFor(rows, product, branches[0])] + CellsFor(rows, product, branches[1..])
  }

  function AssembledRow(e: RosterEntry, rows: seq<Breakdown>, branches: seq<string>): Row {
    Row(e.product, e.name, e.revenue, e.quantity, CellsFor(rows, e.product, branches))
  }

  method AssembleProductRows(roster: seq<RosterEntry>, breakdown: seq<Breakdown>, branches: seq<string>)
    returns (result: seq<Row>)
    ensures |result| == |roster|
    ensures forall i | 0 <= i < |roster| :: result[i] == AssembledRow(roster[i], breakdown, branches)
  {
    var byKey: map<string, Breakdown> := map[];
    for i := 0 to |breakdown|
      invariant forall key :: LastUnderKey(breakdown[..i], key) == if key in byKey then Some(byKey[key]) else None
    {
      assert breakdown[..i + 1][..i] == breakdown[..i];
      byKey := byKey[IndexKey(breakdown[i].product, breakdown[i].branch) := breakdown[i]];
    }
    assert breakdown[..|breakdown|] == breakdown;
    result := [];
    for i := 0 to |roster|
      invariant |result| == i
      invariant forall k | 0 <= k < i :: result[k] == AssembledRow(roster[k], breakdown, branches)
    {
      var perBranch := [];
      for j := 0 to |branches|
        invariant |perBranch| == j
        invariant forall k | 0 <= k < j :: perBranch[k] == CellFor(breakdown, roster[i].product, branches[k])
      {
        var key := IndexKey(roster[i].product, branches[j]);
        perBranch := perBranch +
          [if key in byKey then Cell(branches[j], byKey[key].revenue, byKey[key].quantity) else Cell(branches[j], 0, 0)];
      }
      assert perBranch == CellsFor(breakdown, roster[i].product, branches);
      result := result + [Row(roster[i].product, roster[i].name, roster[i].revenue, roster[i].quantity, perBranch)];
    }
  }

  predicate ColonFree(id: string) {
    ':' !in id
  }

  /** Without colons in product ids, looking up a key is looking for the pair. */
  lemma {:induction false} KeyLookupIsPairLookup(rows: seq<Breakdown>, product: string, branch: string)
    requires ColonFree(product) && forall k | 0 <= k < |rows| :: ColonFree(rows[k].product)
    ensures var b := LastUnderKey(rows, IndexKey(product, branch));
            && (b.Some? ==> b.value in rows && b.value.product == product && b.value.branch == branch)
            && (b.None? ==> forall k | 0 <= k < |rows| :: rows[k].product != product || rows[k].branch != branch)
  {
    if rows != [] {
      var last := rows[|rows| - 1];
      if IndexKey(last.product, last.branch) == IndexKey(product, branch) {
        SplitAtSeparator(last.product, last.branch, product, branch, ':');
      } else {
        KeyLookupIsPairLookup(rows[..|rows| - 1], product, branch);
      }
    }
  }

  /** With colons two cells can share a key, and one shows the other's figures. */
  lemma ColonsCollide(revenue: int, quantity: int)
    ensures CellFor([Breakdown("a:b", "c", revenue, quantity)], "a", "b:c") == Cell("b:c", revenue, quantity)
  {
    var row := Breakdown("a:b", "c", revenue, quantity);
    assert IndexKey("a:b", "c") == "a:b:c" == IndexKey("a", "b:c");
    assert LastUnderKey([row], "a:b:c") == Some(row);
  }

  function CellValue(c: Cell, m: Measure): int {
    if m.Revenue? then c.revenue else c.quantity
  }

  function CellTotal(cells: seq<Cell>, m: Measure): int {
    if cells == [] then 0 else CellValue(cells[0], m) + CellTotal(cells[1..], m)
  }

  /** Every cell of an assembled row is the true sum of its sales, absent groups being zero. */
  lemma CellIsExact(
      items: seq<SaleItem>, p: Params, products: seq<string>, rows: seq<Breakdown>, product: string, branch: string)
    requires IsBreakdown(items, p, products, rows) && product in products
    requires forall id | id in products :: ColonFree(id)
    ensures forall m: Measure :: CellValue(CellFor(rows, product, branch), m) == CellSum(items, p, product, branch, m)
  {
    KeyLookupIsPairLookup(rows, product, branch);
    if LastUnderKey(rows, IndexKey(product, branch)).None? {
      forall m: Measure ensures CellSum(items, p, product, branch, m) == 0 {
        NoRowsNoSum(items, Having(Having(BaseFilter(p), PRODUCT_OF, product), BRANCH_OF, branch), Value(m));
      }
    }
  }

  lemma {:induction false} CellsAreGroups(
      items: seq<SaleItem>, p: Params, products: seq<string>, rows: seq<Breakdown>, product: string,
      branches: seq<string>, m: Measure)
    requires IsBreakdown(items, p, products, rows) && product in products
    requires forall id | id in products :: ColonFree(id)
    ensures CellTotal(CellsFor(rows, product, branches), m)
      == SumOfGroups(items, Having(BaseFilter(p), PRODUCT_OF, product), BRANCH_OF, branches, Value(m))
  {
    if branches != [] {
      CellIsExact(items, p, products, rows, product, branches[0]);
      CellsAreGroups(items, p, products, rows, product, branches[1..], m);
    }
  }

  /** Conservation within a row: for any page of any roster and its breakdown, every selected
      branch appears once, in order, with its true sums, and the totals are the sums of the cells. */
  lemma ComparisonConserves(
      items: seq<SaleItem>, p: Params, names: map<string, string>, page: seq<RosterEntry>, rows: seq<Breakdown>, k: nat)
    requires Distinct(p.branches) && k < |page| && IsEntry(items, p, names, page[k])
    requires IsBreakdown(items, p, Products(page), rows)
    requires forall i | 0 <= i < |page| :: ColonFree(page[i].product)
    ensures var row := AssembledRow(page[k], rows, p.branches);
            && row.product == page[k].product && row.product in names && row.name == names[row.product]
            && |row.perBranch| == |p.branches|
            && (forall j | 0 <= j < |p.branches| ::
                  row.perBranch[j] == Cell(p.branches[j],
                                           CellSum(items, p, row.product, p.branches[j], Revenue),
                                           CellSum(items, p, row.product, p.branches[j], Quantity)))
            && row.totalRevenue == CellTotal(row.perBranch, Revenue)
            && row.totalQuantity == CellTotal(row.perBranch, Quantity)
  {
    var e := page[k];
    assert Products(page)[k] == e.product;
    forall j | 0 <= j < |p.branches|
      ensures var c := CellFor(rows, e.product, p.branches[j]);
              c == Cell(p.branches[j], CellSum(items, p, e.product, p.branches[j], Revenue),
                        CellSum(items, p, e.product, p.branches[j], Quantity))
    {
      CellIsExact(items, p, Products(page), rows, e.product, p.branches[j]);
      assert CellValue(CellFor(rows, e.product, p.branches[j]), Revenue) == CellSum(items, p, e.product, p.branches[j], Revenue);
      assert CellValue(CellFor(rows, e.product, p.branches[j]), Quantity) == CellSum(items, p, e.product, p.branches[j], Quantity);
    }
    TotalIsCells(items, p, names, page, rows, e, Revenue);
    TotalIsCells(items, p, names, page, rows, e, Quantity);
  }

  lemma TotalIsCells(
      items: seq<SaleItem>, p: Params, names: map<string, string>, page: seq<RosterEntry>, rows: seq<Breakdown>,
      e: RosterEntry, m: Measure)
    requires Distinct(p.branches) && IsEntry(items, p, names, e) && e.product in Products(page)
    requires IsBreakdown(items, p, Products(page), rows)
    requires forall i | 0 <= i < |page| :: ColonFree(page[i].product)
    ensures EntryValue(e, m) == CellTotal(CellsFor(rows, e.product, p.branches), m)
  {
    var ofProduct := Having(BaseFilter(p), PRODUCT_OF, e.product);
    CellsAreGroups(items, p, Products(page), rows, e.product, p.branches, m);
    GroupsPartition(items, ofProduct, BRANCH_OF, p.branches, Value(m));
    SumAgrees(items, Having(RosterFilter(p, names), PRODUCT_OF, e.product), ofProduct, Value(m));
  }

  // Pages.

  /** A place in a list, or its end. */
  function Cap(j: nat, size: nat): (c: nat)
    ensures c <= size && c <= j
  {
    if j < size then j else size
  }

  /** OFFSET skip LIMIT limit. */
  function Page(roster: seq<RosterEntry>, limit: nat, skip: nat): seq<RosterEntry> {
    roster[Cap(skip, |roster|)..Cap(skip + limit, |roster|)]
  }

  /** The pages at offsets skip, skip + limit, ..., one after the other. */
  function PagesFrom(roster: seq<RosterEntry>, limit: nat, skip: nat): seq<RosterEntry>
    requires limit > 0
    decreases |roster| - skip
  {
    if skip >= |roster| then [] else Page(roster, limit, skip) + PagesFrom(roster, limit, skip + limit)
  }

  lemma {:induction false} PagesFromIsSuffix(roster: seq<RosterEntry>, limit: nat, skip: nat)
    requires limit > 0 && skip <= |roster|
    ensures PagesFrom(roster, limit, skip) == roster[skip..]
    decreases |roster| - skip
  {
    if skip + limit <= |roster| {
      PagesFromIsSuffix(roster, limit, skip + limit);
      assert roster[skip..] == roster[skip..skip + limit] + roster[skip + limit..];
    }
  }

  function RosterTotal(roster: seq<RosterEntry>, m: Measure): int {
    if roster == [] then 0 else EntryValue(roster[0], m) + RosterTotal(roster[1..], m)
  }

  lemma {:induction false} RosterIsGroups(
      items: seq<SaleItem>, p: Params, names: map<string, string>, roster: seq<RosterEntry>, m: Measure)
    requires forall k | 0 <= k < |roster| :: IsEntry(items, p, names, roster[k])
    ensures RosterTotal(roster, m) == SumOfGroups(items, RosterFilter(p, names), PRODUCT_OF, Products(roster), Value(m))
  {
    if roster != [] {
      assert IsEntry(items, p, names, roster[0]);
      assert Products(roster) == [roster[0].product] + Products(roster[1..]);
      RosterIsGroups(items, p, names, roster[1..], m);
    }
  }

  /** Conservation over the pages of one roster: they are the roster, split without overlap or
      gap, and their totals add up to all matching sales. */
  lemma PagesConserve(
      items: seq<SaleItem>, p: Params, names: map<string, string>, roster: seq<RosterEntry>, limit: nat, m: Measure)
    requires IsRoster(items, p, names, roster) && limit > 0
    ensures PagesFrom(roster, limit, 0) == roster
    ensures RosterTotal(PagesFrom(roster, limit, 0), m) == Sum(items, RosterFilter(p, names), Value(m))
  {
    PagesFromIsSuffix(roster, limit, 0);
    RosterIsGroups(items, p, names, roster, m);
    GroupsPartition(items, RosterFilter(p, names), PRODUCT_OF, Products(roster), Value(m));
  }

  /** No two products rank alike: ORDER BY leaves the database no choice. */
  predicate NoTies(p: Params, roster: seq<RosterEntry>) {
    forall i, j | 0 <= i < j < |roster| ::
      SortValue(p, roster[i]) != SortValue(p, roster[j]) || roster[i].name != roster[j].name
  }

  lemma {:induction false} LexIsTotal(s: string, t: string)
    requires !LexLess(s, t) && !LexLess(t, s)
    ensures s == t
  {
    if s != "" && t != "" {
      LexIsTotal(s[1..], t[1..]);
      assert s == [s[0]] + s[1..] && t == [t[0]] + t[1..];
    }
  }

  lemma EntryOfProduct(items: seq<SaleItem>, p: Params, names: map<string, string>, e: RosterEntry, f: RosterEntry)
    requires IsEntry(items, p, names, e) && IsEntry(items, p, names, f) && e.product == f.product
    ensures e == f
  {
    assert EntryValue(e, Revenue) == EntryValue(f, Revenue) && EntryValue(e, Quantity) == EntryValue(f, Quantity);
  }

  lemma EmptyOrMember(s: seq<RosterEntry>)
    ensures s == [] || exists e :: e in s
  {
    if s != [] {
      assert s[0] in s;
    }
  }

  /** Two orders of the same entries without ties have the same first entry. */
  lemma FirstIsUnique(p: Params, r: seq<RosterEntry>, s: seq<RosterEntry>)
    requires Ordered(p, r) && Ordered(p, s) && NoTies(p, r) && r != [] && s != []
    requires r[0] in s && s[0] in r
    ensures r[0] == s[0]
  {
    var k :| 0 <= k < |s| && s[k] == r[0];
    var j :| 0 <= j < |r| && r[j] == s[0];
    if j > 0 && k > 0 {
      assert MayPrecede(p, r[0], r[j]) && MayPrecede(p, s[0], s[k]);
      LexIsTotal(r[0].name, r[j].name);
    }
  }

  lemma TailMembers(r: seq<RosterEntry>, e: RosterEntry)
    requires r != [] && Distinct(r)
    ensures e in r[1..] <==> e in r && e != r[0]
  {
    assert r == [r[0]] + r[1..];
  }

  /** Two orders of the same entries without ties are equal. */
  lemma {:induction false} OrderIsUnique(p: Params, r: seq<RosterEntry>, s: seq<RosterEntry>)
    requires Ordered(p, r) && Ordered(p, s) && NoTies(p, r) && Distinct(r) && Distinct(s)
    requires forall e :: e in r <==> e in s
    ensures r == s
  {
    EmptyOrMember(s);
    if r != [] {
      assert r[0] in r && s[0] in s;
      FirstIsUnique(p, r, s);
      forall e ensures e in r[1..] <==> e in s[1..] {
        TailMembers(r, e);
        TailMembers(s, e);
      }
      OrderIsUnique(p, r[1..], s[1..]);
      assert r == [r[0]] + r[1..] && s == [s[0]] + s[1..];
    }
  }

  lemma RosterMembers(items: seq<SaleItem>, p: Params, names: map<string, string>, r: seq<RosterEntry>, s: seq<RosterEntry>)
    requires IsRoster(items, p, names, r) && IsRoster(items, p, names, s)
    ensures Distinct(r) && forall e :: e in r ==> e in s
  {
    forall i, j | 0 <= i < j < |r| ensures r[i] != r[j] {
      assert Products(r)[i] != Products(r)[j];
    }
    forall e | e in r ensures e in s {
      var k :| 0 <= k < |r| && r[k] == e;
      assert IsEntry(items, p, names, e);
      assert e.product in Products(s);
      var j :| 0 <= j < |s| && Products(s)[j] == e.product;
      EntryOfProduct(items, p, names, e, s[j]);
    }
  }

  function Swapped(r: seq<RosterEntry>, i: nat, j: nat): seq<RosterEntry>
    requires i < |r| && j < |r|
  {
    r[i := r[j]][j := r[i]]
  }

  lemma SwapStaysOrdered(p: Params, r: seq<RosterEntry>, i: nat, j: nat)
    requires Ordered(p, r) && i < j < |r|
    requires SortValue(p, r[i]) == SortValue(p, r[j]) && r[i].name == r[j].name
    ensures Ordered(p, Swapped(r, i, j))
  {
    var s := Swapped(r, i, j);
    forall a, b | 0 <= a < b < |s| ensures MayPrecede(p, s[a], s[b]) {
      assert MayPrecede(p, r[a], r[b]);
      assert i < b ==> MayPrecede(p, r[i], r[b]);
      assert a < j ==> MayPrecede(p, r[a], r[j]);
      assert MayPrecede(p, r[i], r[j]);
    }
  }

  lemma SwapIds(ids: seq<string>, swapped: seq<string>, i: nat, j: nat)
    requires Distinct(ids) && i < j < |ids| && swapped == ids[i := ids[j]][j := ids[i]]
    ensures Distinct(swapped) && forall x | x in ids :: x in swapped
  {
    forall x | x in ids ensures x in swapped {
      var k :| 0 <= k < |ids| && ids[k] == x;
      assert swapped[if k == i then j else if k == j then i else k] == x;
    }
  }

  lemma ProductsOfSwap(r: seq<RosterEntry>, i: nat, j: nat)
    requires i < |r| && j < |r|
    ensures Products(Swapped(r, i, j)) == Products(r)[i := r[j].product][j := r[i].product]
  {
  }

  lemma SwapDiffers(r: seq<RosterEntry>, i: nat, j: nat)
    requires Distinct(Products(r)) && i < j < |r|
    ensures Swapped(r, i, j) != r
  {
    assert Products(r)[i] != Products(r)[j] && Swapped(r, i, j)[i] == r[j];
  }

  lemma SwapKeepsMembers(r: seq<RosterEntry>, i: nat, j: nat)
    requires i < |r| && j < |r|
    ensures forall k | 0 <= k < |r| :: Swapped(r, i, j)[k] in r
  {
  }

  lemma SwapStaysRoster(items: seq<SaleItem>, p: Params, names: map<string, string>, r: seq<RosterEntry>, i: nat, j: nat)
    requires IsRoster(items, p, names, r) && i < j < |r|
    requires SortValue(p, r[i]) == SortValue(p, r[j]) && r[i].name == r[j].name
    ensures IsRoster(items, p, names, Swapped(r, i, j)) && Swapped(r, i, j) != r
  {
    SwapStaysOrdered(p, r, i, j);
    ProductsOfSwap(r, i, j);
    SwapIds(Products(r), Products(Swapped(r, i, j)), i, j);
    SwapDiffers(r, i, j);
    SwapKeepsMembers(r, i, j);
  }

  /** ORDER BY determines the roster exactly when no two matching products tie. */
  lemma RosterIsUniqueIff(items: seq<SaleItem>, p: Params, names: map<string, string>, r: seq<RosterEntry>)
    requires IsRoster(items, p, names, r)
    ensures (forall s :: IsRoster(items, p, names, s) ==> s == r) <==> NoTies(p, r)
  {
    if NoTies(p, r) {
      forall s | IsRoster(items, p, names, s) ensures s == r {
        RosterMembers(items, p, names, r, s);
        RosterMembers(items, p, names, s, r);
        OrderIsUnique(p, r, s);
      }
    } else {
      var i, j :| 0 <= i < j < |r| && SortValue(p, r[i]) == SortValue(p, r[j]) && r[i].name == r[j].name;
      SwapStaysRoster(items, p, names, r, i, j);
    }
  }

  // Pages cut by separate queries: each from a roster of its own.

  predicate Tied(p: Params, e: RosterEntry, f: RosterEntry) {
    SortValue(p, e) == SortValue(p, f) && e.name == f.name
  }

  predicate TieAt(p: Params, r: seq<RosterEntry>, j: nat) {
    0 < j < |r| && Tied(p, r[j - 1], r[j])
  }

  /** The last entry of page k - 1 and the first of page k tie. */
  predicate BoundaryTie(p: Params, r: seq<RosterEntry>, limit: nat, k: nat) {
    TieAt(p, r, k * limit)
  }

  /** The rosters that the queries of the pages happen to see. */
  ghost predicate AreRosters(items: seq<SaleItem>, p: Params, names: map<string, string>, family: seq<seq<RosterEntry>>) {
    forall k | 0 <= k < |family| :: IsRoster(items, p, names, family[k])
  }

  /** Page after page, each from its own roster. */
  function Cut(family: seq<seq<RosterEntry>>, limit: nat, skip: nat): seq<RosterEntry> {
    if family == [] then [] else Page(family[0], limit, skip) + Cut(family[1..], limit, skip + limit)
  }

  /** The list has one entry for each matching product, in any order. */
  ghost predicate ListsEachOnce(items: seq<SaleItem>, p: Params, names: map<string, string>, list: seq<RosterEntry>) {
    && (forall k | 0 <= k < |list| :: IsEntry(items, p, names, list[k]))
    && (forall i | 0 <= i < |items| && RosterFilter(p, names)(items[i]) :: items[i].product in Products(list))
    && Distinct(Products(list))
  }

  lemma {:induction false} Multiplicity<T>(s: seq<T>, e: T)
    requires Distinct(s)
    ensures multiset(s)[e] == if e in s then 1 else 0
  {
    if s != [] {
      Multiplicity(s[1..], e);
      assert s == [s[0]] + s[1..];
      assert multiset(s) == multiset{s[0]} + multiset(s[1..]);
      assert s[0] !in s[1..];
    }
  }

  lemma SameSize<T>(a: multiset<T>, b: multiset<T>)
    requires a <= b && |a| == |b|
    ensures a == b
  {
    assert a * b == a;
    assert |b - a| == 0;
    assert b == a + (b - a);
  }

  /** Of two lists of distinct items of the same length and different contents, one has an item
      that the other lacks. */
  lemma MissingItem<T>(a: seq<T>, b: seq<T>) returns (e: T)
    requires Distinct(a) && Distinct(b) && |a| == |b| && multiset(a) != multiset(b)
    ensures e in a && e !in b
  {
    if forall x | x in a :: x in b {
      forall x ensures multiset(a)[x] <= multiset(b)[x] {
        Multiplicity(a, x);
        Multiplicity(b, x);
      }
      SameSize(multiset(a), multiset(b));
      assert false;
    }
    e :| e in a && e !in b;
  }

  lemma SameMembers<T>(a: seq<T>, b: seq<T>)
    requires Distinct(a) && Distinct(b) && forall x :: x in a <==> x in b
    ensures multiset(a) == multiset(b) && |a| == |b|
  {
    forall x ensures multiset(a)[x] == multiset(b)[x] {
      Multiplicity(a, x);
      Multiplicity(b, x);
    }
    assert multiset(a) == multiset(b);
    assert |a| == |multiset(a)| && |b| == |multiset(b)|;
  }

  lemma RostersAgree(items: seq<SaleItem>, p: Params, names: map<string, string>, r: seq<RosterEntry>, s: seq<RosterEntry>)
    requires IsRoster(items, p, names, r) && IsRoster(items, p, names, s)
    ensures multiset(r) == multiset(s) && |r| == |s| && Distinct(r) && Distinct(s)
  {
    RosterMembers(items, p, names, r, s);
    RosterMembers(items, p, names, s, r);
    SameMembers(r, s);
  }

  /** If a later entry may come before an earlier one, everything between them ties. */
  lemma TieSpreads(p: Params, r: seq<RosterEntry>, i: nat, j: nat, k: nat)
    requires Ordered(p, r) && i < j <= k < |r| && MayPrecede(p, r[k], r[i])
    ensures Tied(p, r[j - 1], r[j])
  {
    assert MayPrecede(p, r[i], r[k]);
    LexIsTotal(r[i].name, r[k].name);
    TiesWithFirst(p, r, i, j - 1, k);
    TiesWithFirst(p, r, i, j, k);
  }

  lemma TiesWithFirst(p: Params, r: seq<RosterEntry>, i: nat, j: nat, k: nat)
    requires Ordered(p, r) && i <= j <= k < |r| && Tied(p, r[i], r[k])
    ensures Tied(p, r[i], r[j])
  {
    if i < j < k {
      assert MayPrecede(p, r[i], r[j]) && MayPrecede(p, r[j], r[k]);
      LexIsTotal(r[i].name, r[j].name);
    }
  }

  lemma DistinctPrefix<T>(s: seq<T>, j: nat)
    requires Distinct(s) && j <= |s|
    ensures Distinct(s[..j])
  {
  }

  lemma PositionAfter<T>(s: seq<T>, e: T, j: nat) returns (k: nat)
    requires e in s && j <= |s| && e !in s[..j]
    ensures j <= k < |s| && s[k] == e
  {
    assert s == s[..j] + s[j..];
    assert e in s[j..];
    var i: nat :| i < |s| - j && s[j..][i] == e;
    k := j + i;
  }

  /** Where neighbours do not tie, every roster has the same entries before that place. */
  lemma {:induction false} PrefixesAgree(
      items: seq<SaleItem>, p: Params, names: map<string, string>, r: seq<RosterEntry>, s: seq<RosterEntry>, j: nat)
    requires IsRoster(items, p, names, r) && IsRoster(items, p, names, s) && |r| == |s|
    requires 0 < j < |r| && !Tied(p, r[j - 1], r[j])
    ensures multiset(r[..j]) == multiset(s[..j])
  {
    RostersAgree(items, p, names, r, s);
    DistinctPrefix(r, j);
    DistinctPrefix(s, j);
    if multiset(r[..j]) != multiset(s[..j]) {
      var early := MissingItem(r[..j], s[..j]);
      var late := MissingItem(s[..j], r[..j]);
      MembersAgree(r, s, early);
      MembersAgree(s, r, late);
      Crossing(p, r, s, j, early, late);
    }
  }

  lemma MembersAgree<T>(r: seq<T>, s: seq<T>, e: T)
    requires multiset(r) == multiset(s) && e in r
    ensures e in s
  {
    assert e in multiset(r);
  }

  lemma Crossing(p: Params, r: seq<RosterEntry>, s: seq<RosterEntry>, j: nat, early: RosterEntry, late: RosterEntry)
    requires Ordered(p, r) && Ordered(p, s) && 0 < j < |r| == |s|
    requires early in r[..j] && early in s && early !in s[..j]
    requires late in s[..j] && late in r && late !in r[..j]
    ensures Tied(p, r[j - 1], r[j])
  {
    var i: nat :| i < j && r[..j][i] == early;
    var i': nat :| i' < j && s[..j][i'] == late;
    var k := PositionAfter(r, late, j);
    var k' := PositionAfter(s, early, j);
    assert MayPrecede(p, s[i'], s[k']);
    TieSpreads(p, r, i, j, k);
  }

  lemma PageIsSlice(r: seq<RosterEntry>, limit: nat, skip: nat)
    ensures Cap(skip, |r|) <= Cap(skip + limit, |r|)
    ensures r[..Cap(skip + limit, |r|)] == r[..Cap(skip, |r|)] + Page(r, limit, skip)
  {
  }

  lemma {:induction false} CappedPrefixesAgree(
      items: seq<SaleItem>, p: Params, names: map<string, string>, r: seq<RosterEntry>, s: seq<RosterEntry>, j: nat)
    requires IsRoster(items, p, names, r) && IsRoster(items, p, names, s) && |r| == |s| && !TieAt(p, r, j)
    ensures multiset(r[..Cap(j, |r|)]) == multiset(s[..Cap(j, |s|)])
  {
    if 0 < j < |r| {
      PrefixesAgree(items, p, names, r, s, j);
    } else if j == 0 {
      assert r[..0] == s[..0];
    } else {
      RostersAgree(items, p, names, r, s);
      assert r[..|r|] == r && s[..|s|] == s;
    }
  }

  lemma CancelSum<T>(a: multiset<T>, x: multiset<T>, y: multiset<T>)
    requires a + x == a + y
    ensures x == y
  {
    assert x == a + x - a;
  }

  lemma NextOffset(k: nat, limit: nat)
    ensures (k + 1) * limit == k * limit + limit
  {
  }

  lemma PageFromPrefixes(r: seq<RosterEntry>, s: seq<RosterEntry>, limit: nat, skip: nat)
    requires multiset(r[..Cap(skip, |r|)]) == multiset(s[..Cap(skip, |s|)])
    requires multiset(r[..Cap(skip + limit, |r|)]) == multiset(s[..Cap(skip + limit, |s|)])
    ensures multiset(Page(r, limit, skip)) == multiset(Page(s, limit, skip))
  {
    PageIsSlice(r, limit, skip);
    PageIsSlice(s, limit, skip);
    CancelSum(multiset(r[..Cap(skip, |r|)]), multiset(Page(r, limit, skip)), multiset(Page(s, limit, skip)));
  }

  /** Without ties at its two ends a page has the same entries in every roster. */
  lemma {:induction false} PagesAgree(
      items: seq<SaleItem>, p: Params, names: map<string, string>, r: seq<RosterEntry>, s: seq<RosterEntry>,
      limit: nat, skip: nat)
    requires IsRoster(items, p, names, r) && IsRoster(items, p, names, s)
    requires !TieAt(p, r, skip) && !TieAt(p, r, skip + limit)
    ensures multiset(Page(r, limit, skip)) == multiset(Page(s, limit, skip))
  {
    RostersAgree(items, p, names, r, s);
    CappedPrefixesAgree(items, p, names, r, s, skip);
    CappedPrefixesAgree(items, p, names, r, s, skip + limit);
    PageFromPrefixes(r, s, limit, skip);
  }

  lemma RestIsPageAndRest(r: seq<RosterEntry>, limit: nat, skip: nat)
    ensures multiset(r[Cap(skip, |r|)..]) == multiset(Page(r, limit, skip)) + multiset(r[Cap(skip + limit, |r|)..])
  {
    PageIsSlice(r, limit, skip);
    assert r[Cap(skip, |r|)..] == Page(r, limit, skip) + r[Cap(skip + limit, |r|)..];
  }

  lemma BoundaryAt(p: Params, r: seq<RosterEntry>, limit: nat, k: nat, skip: nat)
    requires skip == k * limit && (forall m: nat :: !BoundaryTie(p, r, limit, m))
    ensures !TieAt(p, r, skip)
  {
    assert !BoundaryTie(p, r, limit, k);
  }

  /** A page and a rest that agree with the roster make a cut that does. */
  lemma CutCons(r: seq<RosterEntry>, family: seq<seq<RosterEntry>>, limit: nat, skip: nat)
    requires family != []
    requires multiset(Page(r, limit, skip)) == multiset(Page(family[0], limit, skip))
    requires multiset(Cut(family[1..], limit, skip + limit)) == multiset(r[Cap(skip + limit, |r|)..])
    ensures multiset(Cut(family, limit, skip)) == multiset(r[Cap(skip, |r|)..])
  {
    RestIsPageAndRest(r, limit, skip);
  }

  lemma {:induction false} CutAgrees(
      items: seq<SaleItem>, p: Params, names: map<string, string>, r: seq<RosterEntry>, family: seq<seq<RosterEntry>>,
      limit: nat, k: nat, skip: nat, end: nat)
    requires IsRoster(items, p, names, r) && AreRosters(items, p, names, family)
    requires forall m: nat :: !BoundaryTie(p, r, limit, m)
    requires skip == k * limit && end == (k + |family|) * limit >= |r|
    ensures multiset(Cut(family, limit, skip)) == multiset(r[Cap(skip, |r|)..])
    decreases |family|
  {
    if family == [] {
      assert r[Cap(skip, |r|)..] == [];
    } else {
      NextOffset(k, limit);
      CutTail(items, p, names, family, k);
      CutAgrees(items, p, names, r, family[1..], limit, k + 1, skip + limit, end);
      BoundaryAt(p, r, limit, k, skip);
      BoundaryAt(p, r, limit, k + 1, skip + limit);
      PagesAgree(items, p, names, r, family[0], limit, skip);
      CutCons(r, family, limit, skip);
    }
  }

  lemma CutTail(items: seq<SaleItem>, p: Params, names: map<string, string>, family: seq<seq<RosterEntry>>, k: nat)
    requires family != [] && AreRosters(items, p, names, family)
    ensures AreRosters(items, p, names, family[1..]) && k + 1 + |family[1..]| == k + |family|
    ensures IsRoster(items, p, names, family[0])
  {
    assert IsRoster(items, p, names, family[0]);
    forall i | 0 <= i < |family[1..]| ensures IsRoster(items, p, names, family[1..][i]) {
      assert family[1..][i] == family[i + 1];
    }
  }

  lemma Twice<T>(s: seq<T>, i: nat, j: nat)
    requires i < j < |s| && s[i] == s[j]
    ensures multiset(s)[s[i]] >= 2
  {
    assert s == s[..j] + s[j..];
    assert s[..j][i] == s[i] && s[j..][0] == s[i];
    assert multiset(s) == multiset(s[..j]) + multiset(s[j..]);
  }

  lemma SameProduct(r: seq<RosterEntry>, e: RosterEntry, f: RosterEntry)
    requires Distinct(Products(r)) && e in r && f in r && e.product == f.product
    ensures e == f
  {
    var i :| 0 <= i < |r| && r[i] == e;
    var j :| 0 <= j < |r| && r[j] == f;
    assert Products(r)[i] == Products(r)[j];
  }

  lemma RearrangedProducts(r: seq<RosterEntry>, list: seq<RosterEntry>)
    requires Distinct(Products(r)) && Distinct(r) && multiset(list) == multiset(r)
    ensures Distinct(Products(list))
  {
    forall i, j | 0 <= i < j < |list| ensures Products(list)[i] != Products(list)[j] {
      if list[i].product == list[j].product {
        MembersAgree(list, r, list[i]);
        MembersAgree(list, r, list[j]);
        SameProduct(r, list[i], list[j]);
        Twice(list, i, j);
        Multiplicity(r, list[i]);
        assert false;
      }
    }
  }

  lemma RearrangedRoster(
      items: seq<SaleItem>, p: Params, names: map<string, string>, r: seq<RosterEntry>, list: seq<RosterEntry>)
    requires IsRoster(items, p, names, r) && multiset(list) == multiset(r)
    ensures ListsEachOnce(items, p, names, list)
  {
    RostersAgree(items, p, names, r, r);
    RearrangedProducts(r, list);
    forall k | 0 <= k < |list| ensures IsEntry(items, p, names, list[k]) {
      MembersAgree(list, r, list[k]);
      var j :| 0 <= j < |r| && r[j] == list[k];
      assert IsEntry(items, p, names, r[j]);
    }
    forall i | 0 <= i < |items| && RosterFilter(p, names)(items[i]) ensures items[i].product in Products(list) {
      var j :| 0 <= j < |r| && Products(r)[j] == items[i].product;
      MembersAgree(r, list, r[j]);
      var k :| 0 <= k < |list| && list[k] == r[j];
      assert Products(list)[k] == items[i].product;
    }
  }

  lemma FirstOfCut(family: seq<seq<RosterEntry>>, limit: nat, skip: nat)
    requires family != [] && limit > 0 && skip < |family[0]|
    ensures Cut(family, limit, skip) != [] && Cut(family, limit, skip)[0] == family[0][skip]
  {
    assert Page(family[0], limit, skip)[0] == family[0][skip];
  }

  /** The offset of page k, added up. */
  function Offset(k: nat, limit: nat): nat {
    if k == 0 then 0 else limit + Offset(k - 1, limit)
  }

  lemma {:induction false} OffsetIsProduct(k: nat, limit: nat)
    ensures Offset(k, limit) == k * limit
  {
    if k > 0 {
      OffsetIsProduct(k - 1, limit);
      NextOffset(k - 1, limit);
    }
  }

  lemma TailOffset(family: seq<seq<RosterEntry>>, limit: nat)
    requires family != []
    ensures Offset(|family|, limit) == limit + Offset(|family[1..]|, limit)
  {
  }

  /** Full pages of one roster. */
  lemma {:induction false} CutOfOne(r: seq<RosterEntry>, family: seq<seq<RosterEntry>>, limit: nat, skip: nat, end: nat)
    requires forall i | 0 <= i < |family| :: family[i] == r
    requires end == skip + Offset(|family|, limit) <= |r|
    ensures Cut(family, limit, skip) == r[skip..end]
    decreases |family|
  {
    if family != [] {
      TailOffset(family, limit);
      CutOfOne(r, family[1..], limit, skip + limit, end);
      FullPage(r, limit, skip);
      SplitSlice(r, skip, skip + limit, end);
    }
  }

  lemma SplitSlice(r: seq<RosterEntry>, from: nat, mid: nat, end: nat)
    requires from <= mid <= end <= |r|
    ensures r[from..end] == r[from..mid] + r[mid..end]
  {
  }

  lemma FullPage(r: seq<RosterEntry>, limit: nat, skip: nat)
    requires skip + limit <= |r|
    ensures Page(r, limit, skip) == r[skip..skip + limit]
  {
  }

  lemma Regroup(a: seq<RosterEntry>, b: seq<RosterEntry>, c: seq<RosterEntry>)
    ensures a + (b + c) == (a + b) + c
  {
  }

  lemma ConcatTail(f: seq<seq<RosterEntry>>, g: seq<seq<RosterEntry>>)
    requires f != []
    ensures (f + g)[1..] == f[1..] + g && (f + g)[0] == f[0]
  {
  }

  lemma {:induction false} CutConcat(f: seq<seq<RosterEntry>>, g: seq<seq<RosterEntry>>, limit: nat, skip: nat, end: nat)
    requires end == skip + Offset(|f|, limit)
    ensures Cut(f + g, limit, skip) == Cut(f, limit, skip) + Cut(g, limit, end)
    decreases |f|
  {
    if f == [] {
      assert f + g == g;
    } else {
      TailOffset(f, limit);
      ConcatTail(f, g);
      CutConcat(f[1..], g, limit, skip + limit, end);
      Regroup(Page(f[0], limit, skip), Cut(f[1..], limit, skip + limit), Cut(g, limit, end));
    }
  }

  /** A roster s for one page, and r for the others. */
  ghost predicate AreEither(r: seq<RosterEntry>, s: seq<RosterEntry>, family: seq<seq<RosterEntry>>) {
    forall i | 0 <= i < |family| :: family[i] == r || family[i] == s
  }

  /** Behind k pages of r, one of s: the cut has the last entry before it, then that of s. */
  lemma {:induction false} CutAtOddPage(
      r: seq<RosterEntry>, s: seq<RosterEntry>, before: seq<seq<RosterEntry>>, after: seq<seq<RosterEntry>>,
      limit: nat, j: nat)
    requires limit > 0 && |r| == |s| && 0 < j < |r| && j == Offset(|before|, limit)
    requires (forall i | 0 <= i < |before| :: before[i] == r) && after != [] && after[0] == s
    ensures var cut := Cut(before + after, limit, 0);
            j < |cut| && cut[j - 1] == r[j - 1] && cut[j] == s[j]
  {
    CutConcat(before, after, limit, 0, j);
    CutOfOne(r, before, limit, 0, j);
    FirstOfCut(after, limit, j);
  }

  lemma OddFamily(r: seq<RosterEntry>, s: seq<RosterEntry>, n: nat, k: nat)
    returns (before: seq<seq<RosterEntry>>, after: seq<seq<RosterEntry>>)
    requires k < n
    ensures |before| == k && |before + after| == n && after != [] && after[0] == s && AreEither(r, s, before + after)
    ensures forall i | 0 <= i < |before| :: before[i] == r
  {
    before, after := seq(k, _ => r), seq(n - k, i => if i == 0 then s else r);
  }

  lemma EitherAreRosters(
      items: seq<SaleItem>, p: Params, names: map<string, string>, r: seq<RosterEntry>, s: seq<RosterEntry>,
      family: seq<seq<RosterEntry>>)
    requires IsRoster(items, p, names, r) && IsRoster(items, p, names, s) && AreEither(r, s, family)
    ensures AreRosters(items, p, names, family)
  {
  }

  lemma RepeatedProduct(
      items: seq<SaleItem>, p: Params, names: map<string, string>, list: seq<RosterEntry>, i: nat)
    requires 0 < i < |list| && list[i - 1].product == list[i].product
    ensures !ListsEachOnce(items, p, names, list)
  {
    assert Products(list)[i - 1] == Products(list)[i];
  }

  /** A tie across the start of page k: swapped for that page alone, one product is listed twice. */
  lemma {:induction false} SwappedPageRepeats(
      items: seq<SaleItem>, p: Params, names: map<string, string>, r: seq<RosterEntry>, limit: nat, n: nat, k: nat, j: nat)
    returns (family: seq<seq<RosterEntry>>)
    requires IsRoster(items, p, names, r) && limit > 0 && k < n && j == Offset(k, limit) && TieAt(p, r, j)
    ensures |family| == n && AreRosters(items, p, names, family)
    ensures !ListsEachOnce(items, p, names, Cut(family, limit, 0))
  {
    var s := Swapped(r, j - 1, j);
    SwapStaysRoster(items, p, names, r, j - 1, j);
    var before, after := OddFamily(r, s, n, k);
    family := before + after;
    EitherAreRosters(items, p, names, r, s, family);
    CutAtOddPage(r, s, before, after, limit, j);
    TieRepeats(r, s, Cut(family, limit, 0), j);
    RepeatedProduct(items, p, names, Cut(family, limit, 0), j);
  }

  lemma TieRepeats(r: seq<RosterEntry>, s: seq<RosterEntry>, cut: seq<RosterEntry>, j: nat)
    requires 0 < j < |r| && s == Swapped(r, j - 1, j) && j < |cut| && cut[j - 1] == r[j - 1] && cut[j] == s[j]
    ensures cut[j - 1].product == cut[j].product
  {
  }

  lemma OffsetsAscend(n: nat, k: nat, limit: nat)
    requires n <= k
    ensures n * limit <= k * limit
  {
  }

  lemma BoundaryWithin(k: nat, n: nat, limit: nat, size: nat)
    requires k * limit < size <= n * limit
    ensures k < n
  {
    if n <= k {
      OffsetsAscend(n, k, limit);
    }
  }

  lemma {:induction false} BoundaryTieRepeats(
      items: seq<SaleItem>, p: Params, names: map<string, string>, r: seq<RosterEntry>, limit: nat, n: nat, k: nat, j: nat)
    returns (family: seq<seq<RosterEntry>>)
    requires IsRoster(items, p, names, r) && limit > 0 && j == k * limit && TieAt(p, r, j) && k < n
    ensures |family| == n && AreRosters(items, p, names, family)
    ensures !ListsEachOnce(items, p, names, Cut(family, limit, 0))
  {
    OffsetIsProduct(k, limit);
    family := SwappedPageRepeats(items, p, names, r, limit, n, k, j);
  }

  lemma {:induction false} UntiedPagesListOnce(
      items: seq<SaleItem>, p: Params, names: map<string, string>, r: seq<RosterEntry>, limit: nat, n: nat,
      family: seq<seq<RosterEntry>>)
    requires IsRoster(items, p, names, r) && n * limit >= |r| && (forall k: nat :: !BoundaryTie(p, r, limit, k))
    requires |family| == n && AreRosters(items, p, names, family)
    ensures ListsEachOnce(items, p, names, Cut(family, limit, 0))
  {
    CutAgrees(items, p, names, r, family, limit, 0, 0, n * limit);
    assert r[Cap(0, |r|)..] == r;
    RearrangedRoster(items, p, names, r, Cut(family, limit, 0));
  }

  /** Pages come from separate queries, and the database may order ties differently in each.
      Whatever orders it picks, n pages that reach the end list every matching product exactly
      once, exactly when no two products tie across a page boundary. */
  lemma {:induction false} PagesPartitionIff(
      items: seq<SaleItem>, p: Params, names: map<string, string>, r: seq<RosterEntry>, limit: nat, n: nat)
    requires IsRoster(items, p, names, r) && limit > 0 && n * limit >= |r|
    ensures (forall family | |family| == n && AreRosters(items, p, names, family) ::
               ListsEachOnce(items, p, names, Cut(family, limit, 0)))
      <==> (forall k: nat :: !BoundaryTie(p, r, limit, k))
  {
    if k: nat :| BoundaryTie(p, r, limit, k) {
      BoundaryWithin(k, n, limit, |r|);
      var family := BoundaryTieRepeats(items, p, names, r, limit, n, k, k * limit);
    } else {
      forall family | |family| == n && AreRosters(items, p, names, family)
        ensures ListsEachOnce(items, p, names, Cut(family, limit, 0))
      {
        UntiedPagesListOnce(items, p, names, r, limit, n, family);
      }
    }
  }

  /** A list of each product once totals all matching sales, whatever pages it was cut from. */
  lemma OnceListedConserves(
      items: seq<SaleItem>, p: Params, names: map<string, string>, list: seq<RosterEntry>, m: Measure)
    requires ListsEachOnce(items, p, names, list)
    ensures RosterTotal(list, m) == Sum(items, RosterFilter(p, names), Value(m))
  {
    RosterIsGroups(items, p, names, list, m);
    GroupsPartition(items, RosterFilter(p, names), PRODUCT_OF, Products(list), Value(m));
  }

  // What counts.

  /** A line of a real sale, with neither sale nor line voided, in a selected branch, from start
      to end, of a product that exists and that the search finds, if there is a search. */
  predicate Counts(p: Params, names: map<string, string>, i: SaleItem) {
    && i.isSale && !i.saleVoided && !i.itemVoided
    && i.branch in p.branches && p.start <= i.at && i.at <= p.end
    && i.product in names && (p.found == None || i.product in p.found.value)
  }

  function LineValue(byQuantity: bool): SaleItem -> int {
    (i: SaleItem) => if byQuantity then i.quantity else i.revenue
  }

  /** The sum of the lines of a product that count. */
  function Sold(items: seq<SaleItem>, p: Params, names: map<string, string>, product: string, byQuantity: bool): int {
    Sum(items, (i: SaleItem) => Counts(p, names, i) && i.product == product, LineValue(byQuantity))
  }

  lemma FilterCounts(p: Params, names: map<string, string>, i: SaleItem)
    ensures RosterFilter(p, names)(i) <==> Counts(p, names, i)
  {
    assert BaseFilter(p)(i)
      <==> i.branch in p.branches && i.isSale && !i.saleVoided && !i.itemVoided && p.start <= i.at <= p.end;
  }

  lemma HavingCounts(p: Params, names: map<string, string>, product: string, i: SaleItem)
    ensures Having(RosterFilter(p, names), PRODUCT_OF, product)(i) <==> Counts(p, names, i) && i.product == product
  {
    FilterCounts(p, names, i);
  }

  lemma EntryIsSold(items: seq<SaleItem>, p: Params, names: map<string, string>, e: RosterEntry)
    requires IsEntry(items, p, names, e)
    ensures e.revenue == Sold(items, p, names, e.product, false) && e.quantity == Sold(items, p, names, e.product, true)
  {
    var keep := (i: SaleItem) => Counts(p, names, i) && i.product == e.product;
    var having := Having(RosterFilter(p, names), PRODUCT_OF, e.product);
    forall i | 0 <= i < |items| ensures having(items[i]) == keep(items[i]) {
      HavingCounts(p, names, e.product, items[i]);
    }
    SumAgrees(items, having, keep, Value(Revenue));
    SumAgrees(items, having, keep, Value(Quantity));
    SameValues(items, keep);
    assert EntryValue(e, Revenue) == Sum(items, having, Value(Revenue));
    assert EntryValue(e, Quantity) == Sum(items, having, Value(Quantity));
  }

  lemma {:induction false} SameValues(items: seq<SaleItem>, keep: SaleItem -> bool)
    ensures Sum(items, keep, Value(Revenue)) == Sum(items, keep, LineValue(false))
    ensures Sum(items, keep, Value(Quantity)) == Sum(items, keep, LineValue(true))
  {
    if items != [] {
      SameValues(items[1..], keep);
    }
  }

  /** The roster lists exactly the products with a line that counts, best seller first: by the
      chosen figure downwards, and by name upwards where it is equal. */
  lemma {:induction false} RosterRanksSales(
      items: seq<SaleItem>, p: Params, names: map<string, string>, r: seq<RosterEntry>, j: nat, k: nat)
    requires IsRoster(items, p, names, r) && j < k < |r|
    ensures var first, second := Sold(items, p, names, r[j].product, p.byQuantity), Sold(items, p, names, r[k].product, p.byQuantity);
            first >= second && (first == second ==> !LexLess(names[r[k].product], names[r[j].product]))
    ensures forall product ::
      (product in Products(r) <==> exists i | 0 <= i < |items| :: Counts(p, names, items[i]) && items[i].product == product)
  {
    EntryIsSold(items, p, names, r[j]);
    EntryIsSold(items, p, names, r[k]);
    assert MayPrecede(p, r[j], r[k]);
    forall product
      ensures product in Products(r) <==> exists i | 0 <= i < |items| :: Counts(p, names, items[i]) && items[i].product == product
    {
      ListedIffSold(items, p, names, r, product);
    }
  }

  lemma ListedIffSold(items: seq<SaleItem>, p: Params, names: map<string, string>, r: seq<RosterEntry>, product: string)
    requires IsRoster(items, p, names, r)
    ensures product in Products(r) <==> exists i | 0 <= i < |items| :: Counts(p, names, items[i]) && items[i].product == product
  {
    if product in Products(r) {
      var k :| 0 <= k < |r| && Products(r)[k] == product;
      assert IsEntry(items, p, names, r[k]);
      var i :| 0 <= i < |items| && RosterFilter(p, names)(items[i]) && items[i].product == r[k].product;
      FilterCounts(p, names, items[i]);
    }
    if i :| 0 <= i < |items| && Counts(p, names, items[i]) && items[i].product == product {
      FilterCounts(p, names, items[i]);
    }
  }

  /** Voided, returned, foreign and untimely lines change nothing: with one more of them the roster
      has the same entries. */
  lemma {:induction false} OnlyCountedLinesMatter(
      items: seq<SaleItem>, p: Params, names: map<string, string>, line: SaleItem, e: RosterEntry)
    requires !Counts(p, names, line)
    ensures IsEntry(items + [line], p, names, e) <==> IsEntry(items, p, names, e)
  {
    var more := items + [line];
    FilterCounts(p, names, line);
    forall m: Measure
      ensures Sum(more, Having(RosterFilter(p, names), PRODUCT_OF, e.product), Value(m))
        == Sum(items, Having(RosterFilter(p, names), PRODUCT_OF, e.product), Value(m))
    {
      SumAppends(items, [line], Having(RosterFilter(p, names), PRODUCT_OF, e.product), Value(m));
      NoRowsNoSum([line], Having(RosterFilter(p, names), PRODUCT_OF, e.product), Value(m));
    }
    forall i | 0 <= i < |items| ensures more[i] == items[i] {
    }
    if i :| 0 <= i < |items| && RosterFilter(p, names)(items[i]) && items[i].product == e.product {
      assert RosterFilter(p, names)(more[i]) && more[i].product == e.product;
    }
  }

  /** A cell is the sum of the lines of its product and branch that count. */
  lemma {:induction false} CellCounts(
      items: seq<SaleItem>, p: Params, names: map<string, string>, product: string, branch: string)
    requires product in names && (p.found.Some? ==> product in p.found.value)
    ensures CellSum(items, p, product, branch, Revenue)
      == Sum(items, (i: SaleItem) => Counts(p, names, i) && i.product == product && i.branch == branch, LineValue(false))
    ensures CellSum(items, p, product, branch, Quantity)
      == Sum(items, (i: SaleItem) => Counts(p, names, i) && i.product == product && i.branch == branch, LineValue(true))
  {
    var keep := (i: SaleItem) => Counts(p, names, i) && i.product == product && i.branch == branch;
    var having := Having(Having(BaseFilter(p), PRODUCT_OF, product), BRANCH_OF, branch);
    forall i | 0 <= i < |items| ensures having(items[i]) == keep(items[i]) {
      FilterCounts(p, names, items[i]);
    }
    SumAgrees(items, having, keep, Value(Revenue));
    SumAgrees(items, having, keep, Value(Quantity));
    SameValues(items, keep);
  }

  /** `total` of the response, COUNT(DISTINCT product): the length of every roster. */
  function CountProducts(items: seq<SaleItem>, p: Params, names: map<string, string>): nat {
    |set i | 0 <= i < |items| && RosterFilter(p, names)(items[i]) :: items[i].product|
  }

  lemma {:induction false} DistinctCount<T>(s: seq<T>)
    requires Distinct(s)
    ensures |set x | x in s| == |s|
  {
    if s != [] {
      DistinctCount(s[1..]);
      assert s == [s[0]] + s[1..];
      assert (set x | x in s) == {s[0]} + (set x | x in s[1..]);
      assert s[0] !in s[1..];
    }
  }

  /** The total of the response is the number of products the pages list. */
  lemma {:induction false} TotalIsRosterLength(
      items: seq<SaleItem>, p: Params, names: map<string, string>, list: seq<RosterEntry>)
    requires ListsEachOnce(items, p, names, list)
    ensures CountProducts(items, p, names) == |list|
  {
    var listed := set x | x in Products(list);
    var counted := set i | 0 <= i < |items| && RosterFilter(p, names)(items[i]) :: items[i].product;
    DistinctCount(Products(list));
    forall x | x in listed ensures x in counted {
      var k :| 0 <= k < |list| && Products(list)[k] == x;
      assert IsEntry(items, p, names, list[k]);
    }
    assert counted == listed;
  }
}
