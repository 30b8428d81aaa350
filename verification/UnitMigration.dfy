/** The migration to KG / L / UNIT stock units: six statements over two tables. */
module UnitMigration {
  import opened Options
  import opened Text

  datatype Product = Product(id: nat, baseUnit: string, sellingPrice: int)

  datatype SellableUnit = SellableUnit(
    productId: nat,
    name: string,
    barcode: Option<string>,
    isBase: bool,
    conversionToBase: real,
    sellingPrice: int,
    displayOrder: int)

  const RETIRED: seq<string> := ["g", "ml", "each", "bottle", "pack", "box"]

  /** `CASE LOWER(base_unit) ... END`. */
  function Renamed(baseUnit: string): string {
    var u := Lower(baseUnit);
    if u == "g" then "kg"
    else if u == "ml" then "l"
    else if u == "each" || u == "bottle" || u == "pack" || u == "box" then "unit"
    else u
  }

  predicate IsRetired(name: string) {
    Lower(name) in RETIRED
  }

  /** Postgres `ROUND` of a cent value: halves away from zero. */
  function RoundNumeric(x: real): int {
    if x >= 0.0 then (x + 0.5).Floor else -(-x + 0.5).Floor
  }

  function Find(products: seq<Product>, id: nat): (p: Option<Product>)
    ensures p.Some? ==> p.value in products && p.value.id == id
    ensures p.None? ==> forall q | q in products :: q.id != id
  {
    if products == [] then None
    else if products[0].id == id then Some(products[0])
    else Find(products[1..], id)
  }

  predicate Names(u: SellableUnit, p: Product) {
    u.productId == p.id && Lower(u.name) == Lower(p.baseUnit)
  }

  function BaseRow(p: Product): SellableUnit {
    SellableUnit(p.id, p.baseUnit, None, true, 1.0, p.sellingPrice, 0)
  }

  predicate HasBase(p: Product, units: seq<SellableUnit>) {
    exists i | 0 <= i < |units| :: Names(units[i], p)
  }

  // The statements as functions of the tables.

  function RenameBaseUnits(products: seq<Product>): (r: seq<Product>)
    ensures |r| == |products|
    ensures forall i | 0 <= i < |r| :: r[i] == products[i].(baseUnit := Renamed(products[i].baseUnit))
  {
    seq(|products|, i requires 0 <= i < |products| => products[i].(baseUnit := Renamed(products[i].baseUnit)))
  }

  function DropRetired(units: seq<SellableUnit>): seq<SellableUnit> {
    if units == [] then []
    else
      var last := units[|units| - 1];
      DropRetired(units[..|units| - 1]) + (if IsRetired(last.name) then [] else [last])
  }

  function MissingBaseRows(products: seq<Product>, units: seq<SellableUnit>): (r: seq<SellableUnit>)
    ensures forall u :: u in r <==> exists p :: p in products && !HasBase(p, units) && u == BaseRow(p)
  {
    if products == [] then []
    else
      var last := products[|products| - 1];
      MissingBaseRows(products[..|products| - 1], units) + (if HasBase(last, units) then [] else [BaseRow(last)])
  }

  /** The price of what a unit converts to. */
  function ConvertedPrice(price: int, conversion: real): int {
    RoundNumeric(price as real * conversion)
  }

  /** The update of the rows that name their product's base unit. */
  function AsBase(products: seq<Product>, u: SellableUnit): SellableUnit {
    var p := Find(products, u.productId);
    if p.Some? && Names(u, p.value)
    then u.(isBase := true, conversionToBase := 1.0, sellingPrice := p.value.sellingPrice, displayOrder := 0)
    else u
  }

  /** The update of the rows that do not. */
  function AsOther(products: seq<Product>, u: SellableUnit): SellableUnit {
    var p := Find(products, u.productId);
    if p.Some? && !Names(u, p.value)
    then u.(isBase := false, sellingPrice := ConvertedPrice(p.value.sellingPrice, u.conversionToBase))
    else u
  }

  function Settled(products: seq<Product>, u: SellableUnit): SellableUnit {
    AsOther(products, AsBase(products, u))
  }

  function SettleRows(products: seq<Product>, units: seq<SellableUnit>): (r: seq<SellableUnit>)
    ensures |r| == |units| && forall i | 0 <= i < |r| :: r[i] == Settled(products, units[i])
  {
    seq(|units|, i requires 0 <= i < |units| => Settled(products, units[i]))
  }

  function WithBaseRows(products: seq<Product>, units: seq<SellableUnit>): seq<SellableUnit> {
    DropRetired(units) + MissingBaseRows(products, DropRetired(units))
  }

  function MigratedUnits(products: seq<Product>, units: seq<SellableUnit>): seq<SellableUnit> {
    SettleRows(RenameBaseUnits(products), WithBaseRows(RenameBaseUnits(products), units))
  }

  class Tables {
    var products: seq<Product>
    var units: seq<SellableUnit>

    method UpdateBaseUnits()
      modifies this`products
      ensures products == RenameBaseUnits(old(products))
    {
      for i := 0 to |products|
        invariant |products| == |old(products)|
        invariant forall j | 0 <= j < i :: products[j] == RenameBaseUnits(old(products))[j]
        invariant forall j | i <= j < |products| :: products[j] == old(products)[j]
      {
        products := products[i := products[i].(baseUnit := Renamed(products[i].baseUnit))];
      }
    }

    method DeleteRetired()
      modifies this`units
      ensures units == DropRetired(old(units))
    {
      var kept := [];
      for i := 0 to |units|
        invariant kept == DropRetired(units[..i])
      {
        assert units[..i + 1][..i] == units[..i];
        if !IsRetired(units[i].name) {
          kept := kept + [units[i]];
        }
      }
      assert units[..|units|] == units;
      units := kept;
    }

    method InsertBaseRows()
      modifies this`units
      ensures units == old(units) + MissingBaseRows(products, old(units))
    {
      var inserted := [];
      for i := 0 to |products|
        invariant inserted == MissingBaseRows(products[..i], units)
      {
        assert products[..i + 1][..i] == products[..i];
        if !HasBase(products[i], units) {
          inserted := inserted + [BaseRow(products[i])];
        }
      }
      assert products[..|products|] == products;
      units := units + inserted;
    }

    method UpdateBaseRows()
      modifies this`units
      ensures |units| == |old(units)| && forall j | 0 <= j < |units| :: units[j] == AsBase(products, old(units)[j])
    {
      for i := 0 to |units|
        invariant |units| == |old(units)|
        invariant forall j | 0 <= j < i :: units[j] == AsBase(products, old(units)[j])
        invariant forall j | i <= j < |units| :: units[j] == old(units)[j]
      {
        var u, p := units[i], Find(products, units[i].productId);
        if p.Some? && Names(u, p.value) {
          units := units[i := u.(isBase := true, conversionToBase := 1.0,
                                 sellingPrice := p.value.sellingPrice, displayOrder := 0)];
        }
      }
    }

    method UpdateOtherRows()
      modifies this`units
      ensures |units| == |old(units)| && forall j | 0 <= j < |units| :: units[j] == AsOther(products, old(units)[j])
    {
      for i := 0 to |units|
        invariant |units| == |old(units)|
        invariant forall j | 0 <= j < i :: units[j] == AsOther(products, old(units)[j])
        invariant forall j | i <= j < |units| :: units[j] == old(units)[j]
      {
        var u, p := units[i], Find(products, units[i].productId);
        if p.Some? && !Names(u, p.value) {
          units := units[i := u.(isBase := false, sellingPrice := ConvertedPrice(p.value.sellingPrice, u.conversionToBase))];
        }
      }
    }

    method Up()
      modifies this
      ensures products == RenameBaseUnits(old(products))
      ensures units == MigratedUnits(old(products), old(units))
    {
      UpdateBaseUnits();
      DeleteRetired();
      InsertBaseRows();
      UpdateBaseRows();
      UpdateOtherRows();
      assert units == MigratedUnits(old(products), old(units));
    }
  }

  lemma RenamedIsSettled(baseUnit: string)
    ensures Lower(Renamed(baseUnit)) == Renamed(baseUnit) == Renamed(Renamed(baseUnit))
    ensures !IsRetired(Renamed(baseUnit))
  {
    LowerTwice(baseUnit);
    assert Lower("kg") == "kg" && Lower("l") == "l" && Lower("unit") == "unit";
    assert forall i | 0 <= i < |RETIRED| :: RETIRED[i] != "kg" && RETIRED[i] != "l" && RETIRED[i] != "unit";
  }

  predicate DistinctIds(products: seq<Product>) {
    forall i, j | 0 <= i < j < |products| :: products[i].id != products[j].id
  }

  /** UNIQUE (product_id, name). */
  predicate UniqueNames(units: seq<SellableUnit>) {
    forall i, j | 0 <= i < j < |units| :: units[i].productId != units[j].productId || units[i].name != units[j].name
  }

  lemma {:induction false} FindOnly(products: seq<Product>, p: Product)
    requires DistinctIds(products) && p in products
    ensures Find(products, p.id) == Some(p)
  {
    if products[0] != p {
      assert p in products[1..];
      FindOnly(products[1..], p);
    }
  }

  lemma {:induction false} DropRetiredMembers(units: seq<SellableUnit>)
    ensures forall u | u in DropRetired(units) :: u in units && !IsRetired(u.name)
  {
    if units != [] {
      DropRetiredMembers(units[..|units| - 1]);
    }
  }

  lemma UniqueAppends(units: seq<SellableUnit>, u: SellableUnit)
    requires UniqueNames(units) && forall v | v in units :: v.productId != u.productId || v.name != u.name
    ensures UniqueNames(units + [u])
  {
    forall i | 0 <= i < |units| ensures units[i].productId != u.productId || units[i].name != u.name {
      assert units[i] in units;
    }
  }

  lemma UniquePrefix(units: seq<SellableUnit>)
    requires UniqueNames(units) && units != []
    ensures var init, last := units[..|units| - 1], units[|units| - 1];
            UniqueNames(init) && forall v | v in init :: v.productId != last.productId || v.name != last.name
  {
  }

  lemma {:induction false} DropRetiredKeepsUnique(units: seq<SellableUnit>)
    requires UniqueNames(units)
    ensures UniqueNames(DropRetired(units))
  {
    if units != [] {
      var init, last := units[..|units| - 1], units[|units| - 1];
      UniquePrefix(units);
      DropRetiredKeepsUnique(init);
      DropRetiredMembers(init);
      if !IsRetired(last.name) {
        UniqueAppends(DropRetired(init), last);
      }
    }
  }

  lemma {:induction false} MissingRowsUnique(products: seq<Product>, units: seq<SellableUnit>)
    requires DistinctIds(products) && UniqueNames(units)
    ensures UniqueNames(units + MissingBaseRows(products, units))
  {
    if products == [] {
      assert units + MissingBaseRows(products, units) == units;
    } else {
      var init, last := products[..|products| - 1], products[|products| - 1];
      MissingRowsUnique(init, units);
      var before, rows := units + MissingBaseRows(init, units), units + MissingBaseRows(products, units);
      if !HasBase(last, units) {
        assert rows == before + [BaseRow(last)];
        forall i | 0 <= i < |before| ensures before[i].productId != last.id || before[i].name != last.baseUnit {
          if i < |units| {
            assert !Names(units[i], last);
          } else {
            assert before[i] in MissingBaseRows(init, units);
          }
        }
      } else {
        assert rows == before;
      }
    }
  }

  /** Base units as the first statement leaves them. */
  predicate Renewed(products: seq<Product>) {
    DistinctIds(products)
    && forall p | p in products :: Lower(p.baseUnit) == p.baseUnit && !IsRetired(p.baseUnit)
  }

  lemma RenameRenews(products: seq<Product>)
    requires DistinctIds(products)
    ensures Renewed(RenameBaseUnits(products))
    ensures RenameBaseUnits(RenameBaseUnits(products)) == RenameBaseUnits(products)
  {
    var ps := RenameBaseUnits(products);
    forall i | 0 <= i < |ps|
      ensures Lower(ps[i].baseUnit) == ps[i].baseUnit && !IsRetired(ps[i].baseUnit) && RenameBaseUnits(ps)[i] == ps[i]
    {
      RenamedIsSettled(products[i].baseUnit);
    }
  }

  lemma NoneRetired(ps: seq<Product>, units: seq<SellableUnit>)
    requires Renewed(ps)
    ensures forall u | u in SettleRows(ps, WithBaseRows(ps, units)) :: !IsRetired(u.name)
  {
    var rows := WithBaseRows(ps, units);
    DropRetiredMembers(units);
    forall i | 0 <= i < |rows| ensures !IsRetired(Settled(ps, rows[i]).name) {
      assert rows[i] in DropRetired(units) || rows[i] in MissingBaseRows(ps, DropRetired(units));
    }
  }

  /** The base row of a product, before and after the rows are settled. */
  lemma BaseRowIndex(ps: seq<Product>, units: seq<SellableUnit>, p: Product) returns (i: nat)
    requires Renewed(ps) && p in ps
    ensures var rows := WithBaseRows(ps, units);
            i < |rows| && Names(rows[i], p) && Names(Settled(ps, rows[i]), p) && Settled(ps, rows[i]).isBase
  {
    var kept, missing := DropRetired(units), MissingBaseRows(ps, DropRetired(units));
    FindOnly(ps, p);
    if HasBase(p, kept) {
      i :| i < |kept| && Names(kept[i], p);
      assert WithBaseRows(ps, units)[i] == kept[i];
    } else {
      assert BaseRow(p) in missing;
      var j: nat :| j < |missing| && missing[j] == BaseRow(p);
      i := |kept| + j;
      assert WithBaseRows(ps, units)[i] == missing[j];
    }
  }

  /** A row is base exactly when it names the base unit; a base row converts 1 to 1 and has
      the product's price, any other row the price of what it converts to. */
  predicate FlaggedAndPriced(u: SellableUnit, p: Product) {
    && (u.isBase <==> Lower(u.name) == p.baseUnit)
    && (u.isBase ==> u.conversionToBase == 1.0 && u.sellingPrice == p.sellingPrice && u.displayOrder == 0)
    && (!u.isBase ==> u.sellingPrice == ConvertedPrice(p.sellingPrice, u.conversionToBase))
  }

  lemma SettledRow(ps: seq<Product>, u: SellableUnit, p: Product)
    requires Renewed(ps) && p in ps && u.productId == p.id
    ensures FlaggedAndPriced(Settled(ps, u), p)
  {
    FindOnly(ps, p);
  }

  lemma SettledTwice(ps: seq<Product>, u: SellableUnit)
    ensures Settled(ps, Settled(ps, u)) == Settled(ps, u)
  {
  }

  predicate EachHasBase(products: seq<Product>, units: seq<SellableUnit>) {
    forall p | p in products :: exists i | 0 <= i < |units| :: units[i].isBase && Names(units[i], p)
  }

  predicate EachFlaggedAndPriced(products: seq<Product>, units: seq<SellableUnit>) {
    forall i, p | 0 <= i < |units| && p in products && units[i].productId == p.id :: FlaggedAndPriced(units[i], p)
  }

  lemma SettlingFlags(ps: seq<Product>, units: seq<SellableUnit>)
    requires Renewed(ps)
    ensures EachHasBase(ps, SettleRows(ps, WithBaseRows(ps, units)))
    ensures EachFlaggedAndPriced(ps, SettleRows(ps, WithBaseRows(ps, units)))
  {
    var rows := WithBaseRows(ps, units);
    var us := SettleRows(ps, rows);
    forall p | p in ps ensures exists i | 0 <= i < |us| :: us[i].isBase && Names(us[i], p) {
      var i := BaseRowIndex(ps, units, p);
      assert us[i] == Settled(ps, rows[i]);
    }
    forall i, p | 0 <= i < |us| && p in ps && us[i].productId == p.id ensures FlaggedAndPriced(us[i], p) {
      SettledRow(ps, rows[i], p);
    }
  }

  lemma SettlingKeepsUnique(ps: seq<Product>, units: seq<SellableUnit>)
    requires Renewed(ps) && UniqueNames(units)
    ensures UniqueNames(SettleRows(ps, WithBaseRows(ps, units)))
  {
    DropRetiredKeepsUnique(units);
    MissingRowsUnique(ps, DropRetired(units));
    var rows := WithBaseRows(ps, units);
    var us := SettleRows(ps, rows);
    forall i, j | 0 <= i < j < |us| ensures us[i].productId != us[j].productId || us[i].name != us[j].name {
      assert us[i] == Settled(ps, rows[i]) && us[j] == Settled(ps, rows[j]);
    }
  }

  /** What the migration leaves, for any starting tables: no retired names, of units or base
      units; for every product a base row; every row flagged and priced by its product; and no (product, name)
      duplicate where there was none. */
  lemma MigrationOutcome(products: seq<Product>, units: seq<SellableUnit>)
    requires DistinctIds(products)
    ensures var ps, us := RenameBaseUnits(products), MigratedUnits(products, units);
            && (forall u | u in us :: !IsRetired(u.name))
            && (forall p | p in ps :: !IsRetired(p.baseUnit))
            && EachHasBase(ps, us)
            && EachFlaggedAndPriced(ps, us)
            && (UniqueNames(units) ==> UniqueNames(us))
  {
    RenameRenews(products);
    NoneRetired(RenameBaseUnits(products), units);
    SettlingFlags(RenameBaseUnits(products), units);
    if UniqueNames(units) {
      SettlingKeepsUnique(RenameBaseUnits(products), units);
    }
  }

  lemma KeepsLast(units: seq<SellableUnit>)
    requires units != [] && !IsRetired(units[|units| - 1].name)
    ensures DropRetired(units) == DropRetired(units[..|units| - 1]) + [units[|units| - 1]]
  {
  }

  predicate NoRetiredNames(units: seq<SellableUnit>) {
    forall u | u in units :: !IsRetired(u.name)
  }

  lemma {:induction false} NothingRetired(units: seq<SellableUnit>)
    requires NoRetiredNames(units)
    ensures DropRetired(units) == units
  {
    if units != [] {
      var init, last := units[..|units| - 1], units[|units| - 1];
      assert units == init + [last];
      PrefixNotRetired(units, init, last);
      NothingRetired(init);
      KeepsLast(units);
    }
  }

  lemma PrefixNotRetired(units: seq<SellableUnit>, init: seq<SellableUnit>, last: SellableUnit)
    requires NoRetiredNames(units) && units == init + [last]
    ensures NoRetiredNames(init) && !IsRetired(last.name)
  {
    assert last in units;
  }

  lemma {:induction false} NothingMissing(products: seq<Product>, units: seq<SellableUnit>)
    requires forall p | p in products :: HasBase(p, units)
    ensures MissingBaseRows(products, units) == []
  {
    if products != [] {
      NothingMissing(products[..|products| - 1], units);
    }
  }

  /** Running the data statements twice is running them once. */
  lemma {:induction false} MigrationIsIdempotent(products: seq<Product>, units: seq<SellableUnit>)
    requires DistinctIds(products)
    ensures RenameBaseUnits(RenameBaseUnits(products)) == RenameBaseUnits(products)
    ensures MigratedUnits(RenameBaseUnits(products), MigratedUnits(products, units)) == MigratedUnits(products, units)
  {
    var ps, us := RenameBaseUnits(products), MigratedUnits(products, units);
    var rows := WithBaseRows(ps, units);
    RenameRenews(products);
    NoneRetired(ps, units);
    NothingRetired(us);
    forall p | p in ps ensures HasBase(p, us) {
      var i := BaseRowIndex(ps, units, p);
      assert us[i] == Settled(ps, rows[i]);
    }
    NothingMissing(ps, us);
    assert WithBaseRows(ps, us) == us;
    forall i | 0 <= i < |us| ensures Settled(ps, us[i]) == us[i] {
      SettledTwice(ps, rows[i]);
    }
    assert SettleRows(ps, us) == us;
  }

  // What the migration keeps.

  datatype Dimension = Mass | Volume | Count | Other(unit: string)

  /** What a unit name measures, in any spelling; the six retired names and the three kept ones. */
  function Measures(name: string): Dimension {
    var u := Lower(name);
    if u in ["g", "kg"] then Mass
    else if u in ["ml", "l"] then Volume
    else if u in ["each", "bottle", "pack", "box", "unit"] then Count
    else Other(u)
  }

  /** The one name that is left for what a unit measures. */
  function NameOf(d: Dimension): string {
    match d
    case Mass => "kg"
    case Volume => "l"
    case Count => "unit"
    case Other(unit) => unit
  }

  lemma RenamedByDimension(baseUnit: string)
    ensures Renamed(baseUnit) == NameOf(Measures(baseUnit))
  {
  }

  lemma NameMeasures(baseUnit: string)
    ensures Measures(NameOf(Measures(baseUnit))) == Measures(baseUnit)
  {
    LowerTwice(baseUnit);
    assert Lower("kg") == "kg" && Lower("l") == "l" && Lower("unit") == "unit";
  }

  /** Two names are equal after the migration exactly when they measured the same. */
  lemma SameNameIff(a: string, b: string)
    ensures NameOf(Measures(a)) == NameOf(Measures(b)) <==> Measures(a) == Measures(b)
  {
    NameMeasures(a);
    NameMeasures(b);
  }

  /** Every product is stocked in what it was stocked in: mass in kg, volume in l, counted units
      in unit, anything else under its lower-cased name; two products end with the same base unit
      exactly when theirs measured the same. Nothing else about a product changes, and it has a
      base row of that name at its price. */
  lemma {:induction false} BaseUnitsKeepDimension(products: seq<Product>, units: seq<SellableUnit>, i: nat, j: nat)
    requires DistinctIds(products) && i < |products| && j < |products|
    ensures var ps, us := RenameBaseUnits(products), MigratedUnits(products, units);
            && ps[i] == products[i].(baseUnit := NameOf(Measures(products[i].baseUnit)))
            && Measures(ps[i].baseUnit) == Measures(products[i].baseUnit)
            && (ps[i].baseUnit == ps[j].baseUnit <==> Measures(products[i].baseUnit) == Measures(products[j].baseUnit))
            && (exists k | 0 <= k < |us| ::
                  && us[k].productId == products[i].id && us[k].isBase && us[k].conversionToBase == 1.0
                  && Lower(us[k].name) == NameOf(Measures(products[i].baseUnit))
                  && us[k].sellingPrice == products[i].sellingPrice)
  {
    RenamedByDimension(products[i].baseUnit);
    RenamedByDimension(products[j].baseUnit);
    NameMeasures(products[i].baseUnit);
    SameNameIff(products[i].baseUnit, products[j].baseUnit);
    BaseRowOf(products, units, i);
  }

  lemma BaseRowOf(products: seq<Product>, units: seq<SellableUnit>, i: nat)
    requires DistinctIds(products) && i < |products|
    ensures var p, us := RenameBaseUnits(products)[i], MigratedUnits(products, units);
            exists k | 0 <= k < |us| ::
              && us[k].productId == p.id && us[k].isBase && us[k].conversionToBase == 1.0
              && Lower(us[k].name) == p.baseUnit && us[k].sellingPrice == p.sellingPrice
  {
    var ps, us := RenameBaseUnits(products), MigratedUnits(products, units);
    RenameRenews(products);
    SettlingFlags(ps, units);
    assert ps[i] in ps;
    var k :| 0 <= k < |us| && us[k].isBase && Names(us[k], ps[i]);
    assert FlaggedAndPriced(us[k], ps[i]);
  }

  /** The units of a name that is none of the six retired ones, in any spelling. */
  predicate KeptName(name: string) {
    Measures(name).Other? || Lower(name) in ["kg", "l", "unit"]
  }

  lemma KeptIffNotRetired(name: string)
    ensures KeptName(name) <==> !IsRetired(name)
  {
  }

  /** What identifies a unit row to the till: product, name and barcode. */
  predicate SameUnit(u: SellableUnit, v: SellableUnit) {
    u.productId == v.productId && u.name == v.name && u.barcode == v.barcode
  }

  lemma SettledIsSameUnit(ps: seq<Product>, u: SellableUnit)
    ensures SameUnit(u, Settled(ps, u))
  {
  }

  /** How many rows are the same unit. */
  function CountUnits(units: seq<SellableUnit>, u: SellableUnit): nat {
    if units == [] then 0
    else CountUnits(units[..|units| - 1], u) + if SameUnit(units[|units| - 1], u) then 1 else 0
  }

  lemma {:induction false} CountAppends(a: seq<SellableUnit>, b: seq<SellableUnit>, u: SellableUnit)
    ensures CountUnits(a + b, u) == CountUnits(a, u) + CountUnits(b, u)
  {
    if b == [] {
      assert a + b == a;
    } else {
      var init, last := b[..|b| - 1], b[|b| - 1];
      assert (a + b)[..|a + b| - 1] == a + init && (a + b)[|a + b| - 1] == last;
      CountAppends(a, init, u);
    }
  }

  lemma {:induction false} CountKept(units: seq<SellableUnit>, u: SellableUnit)
    ensures CountUnits(DropRetired(units), u) == if KeptName(u.name) then CountUnits(units, u) else 0
  {
    if units != [] {
      var init, last := units[..|units| - 1], units[|units| - 1];
      CountKept(init, u);
      KeptIffNotRetired(u.name);
      var kept := DropRetired(init);
      if !IsRetired(last.name) {
        KeepsLast(units);
        CountAppends(kept, [last], u);
        CountOne(last, u);
      } else {
        assert DropRetired(units) == kept + [] == kept;
      }
    }
  }

  lemma CountOne(v: SellableUnit, u: SellableUnit)
    ensures CountUnits([v], u) == if SameUnit(v, u) then 1 else 0
  {
    assert [v][..0] == [];
    assert CountUnits([v][..0], u) == 0;
  }

  lemma {:induction false} CountSettled(ps: seq<Product>, rows: seq<SellableUnit>, u: SellableUnit)
    ensures CountUnits(SettleRows(ps, rows), u) == CountUnits(rows, u)
  {
    if rows != [] {
      var init, last := rows[..|rows| - 1], rows[|rows| - 1];
      CountSettled(ps, init, u);
      assert SettleRows(ps, rows)[..|rows| - 1] == SettleRows(ps, init);
      SettledIsSameUnit(ps, last);
    }
  }

  lemma {:induction false} CountNone(units: seq<SellableUnit>, u: SellableUnit)
    requires forall v | v in units :: !SameUnit(v, u)
    ensures CountUnits(units, u) == 0
  {
    if units != [] {
      CountNone(units[..|units| - 1], u);
    }
  }

  /** No barcode is lost or duplicated: a unit with a barcode is in the migrated table as often as
      it was before, unless its name is retired; no row of a retired name is left. */
  lemma {:induction false} BarcodesSurvive(products: seq<Product>, units: seq<SellableUnit>, u: SellableUnit)
    requires u.barcode.Some?
    ensures CountUnits(MigratedUnits(products, units), u) == if KeptName(u.name) then CountUnits(units, u) else 0
  {
    var ps := RenameBaseUnits(products);
    var kept := DropRetired(units);
    var missing := MissingBaseRows(ps, kept);
    CountSettled(ps, kept + missing, u);
    CountAppends(kept, missing, u);
    CountKept(units, u);
    CountNone(missing, u);
  }

  /** A migrated row is a kept one, in its place, or the new base row of a product. */
  lemma {:induction false} RowsComeFrom(products: seq<Product>, units: seq<SellableUnit>, k: nat)
    requires k < |MigratedUnits(products, units)|
    ensures var us := MigratedUnits(products, units);
            || (exists u :: u in units && KeptName(u.name) && SameUnit(u, us[k])
                  && (us[k].isBase || (us[k].conversionToBase == u.conversionToBase && us[k].displayOrder == u.displayOrder)))
            || (us[k].barcode.None? && exists p :: p in RenameBaseUnits(products) && us[k].productId == p.id && us[k].name == p.baseUnit)
  {
    var ps, us := RenameBaseUnits(products), MigratedUnits(products, units);
    var rows := WithBaseRows(ps, units);
    assert us[k] == Settled(ps, rows[k]);
    SettledIsSameUnit(ps, rows[k]);
    DropRetiredMembers(units);
    if rows[k] in DropRetired(units) {
      KeptIffNotRetired(rows[k].name);
      assert rows[k] in units;
      SettledKeepsConversion(ps, rows[k]);
    } else {
      assert rows[k] in MissingBaseRows(ps, DropRetired(units));
    }
  }

  lemma SettledKeepsConversion(ps: seq<Product>, u: SellableUnit)
    ensures var v := Settled(ps, u);
            v.isBase || (v.conversionToBase == u.conversionToBase && v.displayOrder == u.displayOrder)
  {
  }

  /** A converted price is the price of what the unit converts to, to the nearest cent, and half
      a cent is rounded away from zero. */
  lemma ConvertedPriceIsNearest(price: int, conversion: real)
    ensures var exact, rounded := price as real * conversion, ConvertedPrice(price, conversion) as real;
            && -0.5 <= rounded - exact <= 0.5
            && (rounded - exact == 0.5 ==> exact > 0.0) && (rounded - exact == -0.5 ==> exact < 0.0)
  {
  }
}
