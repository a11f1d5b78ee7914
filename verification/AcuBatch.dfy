/**
 * Valuing one recipe and valuing many at once (stp-api/src/costs/acus.service.ts). The database answers each query
 * with its rows in any order it likes; the totals are the same.
 */
module AcuBatch {
  import opened Wrappers
  import opened Rounding
  import opened PriceSelection
  import opened AcuCost

  // ---------------------------------------------------------------- units

  /** `factor` says how many base units one of these is; a unit without a base is its own base. */
  datatype Unit = Unit(id: nat, base: Option<nat>, factor: Option<real>)

  function BaseOf(u: Unit): nat {
    if u.base.Some? then u.base.value else u.id
  }

  function FactorOf(u: Unit): Option<real> {
    if u.base.Some? then u.factor else Some(1.0)
  }

  predicate Usable(f: Option<real>) {
    f.Some? && f.value > 0.0
  }

  function ConvertQuantity(quantity: real, from: Unit, to: Unit): Option<real> {
    if from.id == to.id then Some(quantity)
    else if BaseOf(from) != BaseOf(to) || !Usable(FactorOf(from)) || !Usable(FactorOf(to)) then None
    else Some(Round4(Rescale(quantity, FactorOf(from).value, FactorOf(to).value)))
  }

  function Rescale(quantity: real, from: real, to: real): real
    requires to > 0.0
  {
    quantity * from / to
  }

  /**
   * Two units convert exactly when they are one, or have the same base one step up and usable factors, a unit without a
   * base counting for itself. Told in base units, the quantity is the same up to half a ten-thousandth of the unit
   * converted to.
   */
  lemma ConvertsExactlyWhen(q: real, a: Unit, b: Unit)
    ensures var r := ConvertQuantity(q, a, b);
      var baseOfA := if a.base == None then a.id else a.base.value;
      var baseOfB := if b.base == None then b.id else b.base.value;
      && (r.Some? <==>
            || a.id == b.id
            || (&& baseOfA == baseOfB && (a.base == None || (a.factor.Some? && a.factor.value > 0.0))
                && (b.base == None || (b.factor.Some? && b.factor.value > 0.0))))
      && (a.id == b.id ==> r == Some(q))
      && (r.Some? && a.id != b.id ==>
            var f, g := if a.base == None then 1.0 else a.factor.value, if b.base == None then 1.0 else b.factor.value;
            Within(r.value * g, q * f, 0.00005 * g))
  {
    if a.id != b.id && ConvertQuantity(q, a, b).Some? {
      ConversionKeepsTheMagnitude(q, a, b);
    }
  }

  /** Conversion looks one base up and no further: a unit converts to its base exactly when that one ends the chain. */
  lemma OnlyOneBaseUp(q: real, u: Unit, base: Unit)
    requires u.id != base.id && u.base == Some(base.id) && Usable(FactorOf(u)) && Usable(FactorOf(base))
    ensures ConvertQuantity(q, u, base).Some? <==> base.base.None? || base.base == Some(base.id)
  {
  }

  /** A box of ten packs of six: the box does not convert to packs, because packs are counted in units. */
  lemma ChainsDoNotConvert(q: real)
    ensures var pack, box := Unit(2, Some(1), Some(6.0)), Unit(3, Some(2), Some(10.0));
      ConvertQuantity(q, box, pack).None?
  {
    OnlyOneBaseUp(q, Unit(3, Some(2), Some(10.0)), Unit(2, Some(1), Some(6.0)));
  }

  /** Counted in base units the converted quantity is the same, up to half a ten-thousandth of the unit converted to. */
  lemma ConversionKeepsTheMagnitude(q: real, a: Unit, b: Unit)
    requires a.id != b.id && ConvertQuantity(q, a, b).Some?
    ensures Within(ConvertQuantity(q, a, b).value * FactorOf(b).value, q * FactorOf(a).value,
      0.00005 * FactorOf(b).value)
  {
    var f, g := FactorOf(a).value, FactorOf(b).value;
    var exact := Rescale(q, f, g);
    var e := Round4(exact) - exact;
    RescaleTimes(q, f, g);
    RoundingError(exact);
    NonNegativeProduct(0.00005 - e, g);
    NonNegativeProduct(e + 0.00005, g);
    assert Round4(exact) * g == exact * g + e * g;
  }

  /** There and back loses at most half a ten-thousandth on each leg, the first one seen through the factors. */
  lemma ConvertThereAndBack(q: real, a: Unit, b: Unit)
    requires a.id != b.id && ConvertQuantity(q, a, b).Some?
    ensures var there := ConvertQuantity(q, a, b).value;
      && ConvertQuantity(there, b, a).Some?
      && Within(ConvertQuantity(there, b, a).value, q,
           0.00005 * Rescale(1.0, FactorOf(b).value, FactorOf(a).value) + 0.00005)
  {
    BackAndForth(q, FactorOf(a).value, FactorOf(b).value);
  }

  lemma RescaleTimes(q: real, f: real, g: real)
    requires g > 0.0
    ensures Rescale(q, f, g) * g == q * f
  {
  }

  lemma BackAndForth(q: real, f: real, g: real)
    requires f > 0.0 && g > 0.0
    ensures Within(Round4(Rescale(Round4(Rescale(q, f, g)), g, f)), q, 0.00005 * Rescale(1.0, g, f) + 0.00005)
  {
    var a := Rescale(q, f, g);
    var there := Round4(a);
    var b, ratio := Rescale(there, g, f), Rescale(1.0, g, f);
    RescaleTimes(q, f, g);
    RescaleTimes(there, g, f);
    RescaleTimes(1.0, g, f);
    assert ratio > 0.0;
    RoundingError(a);
    RoundingError(b);
    ErrorTimesRatio(q, f, g, a, there, b, ratio);
  }

  lemma ErrorTimesRatio(q: real, f: real, g: real, a: real, there: real, b: real, ratio: real)
    requires f > 0.0 && a * g == q * f && b * f == there * g && ratio * f == g && ratio > 0.0
    requires -0.00005 <= there - a <= 0.00005
    ensures -0.00005 * ratio <= b - q <= 0.00005 * ratio
  {
    var e := there - a;
    assert (b - q) * f == e * ratio * f by {
      assert (b - q) * f == there * g - a * g == e * g;
      assert e * ratio * f == e * (ratio * f);
    }
    SameFactor(b - q, e * ratio, f);
    NonNegativeProduct(0.00005 - e, ratio);
    NonNegativeProduct(e + 0.00005, ratio);
  }

  lemma SameFactor(x: real, y: real, f: real)
    requires f > 0.0 && x * f == y * f
    ensures x == y
  {
    assert (x - y) * f == 0.0;
  }

  // ---------------------------------------------------------------- from a stored line to an input

  datatype Row = Row(
    id: nat, acu: nat, kind: Kind, material: Option<nat>, unit: Option<nat>, quantity: real, unitCost: Option<real>,
    basis: Option<Basis>, pct: Option<real>, wastePct: Option<real>)

  /** The unit each material is bought in, and the units. */
  datatype Lookups = Lookups(materialUnit: map<nat, nat>, units: map<nat, Unit>)

  function InputQuantity(row: Row, l: Lookups): real {
    if row.material.Some? && row.material.value in l.materialUnit && row.unit.Some?
       && row.unit.value != l.materialUnit[row.material.value] then
      var bought := l.materialUnit[row.material.value];
      var converted :=
        if row.unit.value in l.units && bought in l.units
        then ConvertQuantity(row.quantity, l.units[row.unit.value], l.units[bought])
        else None;
      if converted.Some? then converted.value else row.quantity
    else row.quantity
  }

  function BuildInput(row: Row, l: Lookups): Item {
    Item(row.id, row.kind, row.material, Some(InputQuantity(row, l)), row.unitCost, row.basis, row.pct, row.wastePct)
  }

  function Inputs(rows: seq<Row>, l: Lookups): seq<Item> {
    if rows == [] then [] else Inputs(rows[..|rows| - 1], l) + [BuildInput(rows[|rows| - 1], l)]
  }

  /**
   * What is priced is the same magnitude told in the unit the material is bought in; when the two units do not convert,
   * or are one, it is the quantity of the recipe.
   */
  lemma InputIsInTheBuyingUnit(row: Row, l: Lookups)
    requires row.material.Some? && row.material.value in l.materialUnit && row.unit.Some?
    requires row.unit.value in l.units && l.materialUnit[row.material.value] in l.units
    requires forall u :: u in l.units ==> l.units[u].id == u
    ensures var a, b := l.units[row.unit.value], l.units[l.materialUnit[row.material.value]];
      var quantity := BuildInput(row, l).quantity.value;
      if a == b || ConvertQuantity(row.quantity, a, b).None? then quantity == row.quantity
      else Within(quantity * FactorOf(b).value, row.quantity * FactorOf(a).value, 0.00005 * FactorOf(b).value)
  {
    var a, b := l.units[row.unit.value], l.units[l.materialUnit[row.material.value]];
    if a.id != b.id && ConvertQuantity(row.quantity, a, b).Some? {
      ConversionKeepsTheMagnitude(row.quantity, a, b);
    }
  }

  /** A line is valued with all it says; only the quantity of a material in another unit may be another. */
  lemma InputCarriesTheLine(row: Row, l: Lookups)
    ensures var item := BuildInput(row, l);
      && item.id == row.id && item.kind == row.kind && item.material == row.material && item.unitCost == row.unitCost
      && item.basis == row.basis && item.pct == row.pct && item.wastePct == row.wastePct && item.quantity.Some?
      && var converts := row.material.Some? && row.unit.Some? && row.material.value in l.materialUnit
           && row.unit.value != l.materialUnit[row.material.value];
         !converts ==> item.quantity == Some(row.quantity)
  {
  }

  /** Each line of the recipe is valued once, in order. */
  lemma {:induction false} InputsAreTheLines(rows: seq<Row>, l: Lookups)
    ensures |Inputs(rows, l)| == |rows| && forall i :: 0 <= i < |rows| ==> Inputs(rows, l)[i] == BuildInput(rows[i], l)
  {
    if rows != [] {
      InputsAreTheLines(rows[..|rows| - 1], l);
    }
  }

  /** The line and its material are in two units and the quantity cannot be brought from one to the other. */
  predicate Unconverted(row: Row, l: Lookups) {
    && row.material.Some? && row.material.value in l.materialUnit && row.unit.Some?
    && row.unit.value != l.materialUnit[row.material.value]
    && !(&& row.unit.value in l.units && l.materialUnit[row.material.value] in l.units
         && ConvertQuantity(row.quantity, l.units[row.unit.value], l.units[l.materialUnit[row.material.value]]).Some?)
  }

  /**
   * For every line whose quantity cannot be converted: the price of the catalogue multiplies the quantity as it is
   * written exactly when the line is a material without a cost of its own and the material has a price, although the
   * comment in the code says that price is then ignored.
   */
  lemma FailedConversionIsStillPriced(row: Row, l: Lookups, prices: Prices)
    requires Unconverted(row, l)
    ensures var line := RateLine(BuildInput(row, l), prices);
      && (line.source == FromCatalog <==> row.kind == Material && row.unitCost.None? && row.material.value in prices)
      && (line.source == FromCatalog ==>
            line.subtotal == Subtotal(AsWritten(row), Positive(Some(prices[row.material.value]))))
  {
    assert BuildInput(row, l) == BuildInput(row, l).(quantity := Some(row.quantity));
  }

  /** The quantity of the line with its waste, in the unit of the line. */
  function AsWritten(row: Row): real {
    EffectiveQuantity(BuildInput(row, Lookups(map[], map[])))
  }

  /** What `validateItem` asks of the unit of a line when it is saved. */
  predicate UnitAccepted(row: Row, l: Lookups) {
    && (row.material.Some? ==> row.material.value in l.materialUnit)
    && (row.unit.Some? ==> row.unit.value in l.units)
    && (row.unit.Some? && row.material.Some? && row.unit.value != l.materialUnit[row.material.value] ==>
          var bought := l.materialUnit[row.material.value];
          bought in l.units && ConvertQuantity(1.0, l.units[row.unit.value], l.units[bought]).Some?)
  }

  /** `UnitsService.update` with another base and factor: nothing asks who uses the unit. */
  function Rebased(l: Lookups, unit: nat, base: nat, factor: real): Lookups {
    l.(units := l.units[unit := Unit(unit, Some(base), Some(factor))])
  }

  /**
   * A line just saved converts. Once its unit is given another base it no longer does exactly when that is not the
   * base of the unit the material is bought in; nothing looks at the line again.
   */
  lemma RebasingCanUnconvert(row: Row, l: Lookups, base: nat, factor: real)
    requires UnitAccepted(row, l) && row.unit.Some? && factor > 0.0
    requires row.material.Some? && row.unit.value != l.materialUnit[row.material.value]
    requires forall u :: u in l.units ==> l.units[u].id == u
    ensures !Unconverted(row, l)
    ensures Unconverted(row, Rebased(l, row.unit.value, base, factor)) <==>
      base != BaseOf(l.units[l.materialUnit[row.material.value]])
  {
  }

  /** Two quintals of a material bought by the kilo, at three a kilo, are valued at six once the quintal is rebased. */
  lemma FailedConversionIsReached()
    ensures var kilo, quintal, litre := Unit(1, None, None), Unit(2, Some(1), Some(100.0)), Unit(3, None, None);
      var before := Lookups(map[5 := 1], map[1 := kilo, 2 := quintal, 3 := litre]);
      var row := Row(7, 1, AcuCost.Material, Some(5), Some(2), 2.0, None, None, None, None);
      && UnitAccepted(row, before) && Unconverted(row, Rebased(before, 2, 3, 1.0))
      && RateLine(BuildInput(row, before), map[5 := 3.0]).subtotal == 6000000
      && RateLine(BuildInput(row, Rebased(before, 2, 3, 1.0)), map[5 := 3.0]).subtotal == 60000
  {
    assert Round4(2.0 * (1.0 + 0.0 / 100.0)) == 2.0;
    assert Rescale(2.0, 100.0, 1.0) == 200.0 && Round4(200.0) == 200.0;
    assert Round4(200.0 * (1.0 + 0.0 / 100.0)) == 200.0;
  }

  // ---------------------------------------------------------------- the database

  datatype Db = Db(acus: set<nat>, rows: seq<Row>, prices: seq<Price>, lookups: Lookups)

  function Where<T>(xs: seq<T>, keep: T -> bool): seq<T> {
    if xs == [] then []
    else
      var before := Where(xs[..|xs| - 1], keep);
      if keep(xs[|xs| - 1]) then before + [xs[|xs| - 1]] else before
  }

  function InAcu(acu: nat): Row -> bool {
    (row: Row) => row.acu == acu
  }

  function InAcus(acus: set<nat>): Row -> bool {
    (row: Row) => row.acu in acus
  }

  function MaterialsOf(rows: seq<Row>): set<nat> {
    set i | 0 <= i < |rows| && rows[i].material.Some? :: rows[i].material.value
  }

  /** `materialsRepository.find({ where: { id: In(...) } })` and every unit. */
  function LookupsFor(db: Db, rows: seq<Row>): Lookups {
    Lookups(map m | m in db.lookups.materialUnit && m in MaterialsOf(rows) ::
      db.lookups.materialUnit[m], db.lookups.units)
  }

  /** `acusRepository.find({ where: { id: In(...) } })`. */
  function Found(db: Db, ids: set<nat>): set<nat> {
    ids * db.acus
  }

  /** The rows of a query, in some order. */
  ghost predicate Fetched(rows: seq<Row>, table: seq<Row>, keep: Row -> bool) {
    multiset(rows) == multiset(Where(table, keep))
  }

  /** The live prices of the materials of these rows, in some order. */
  ghost predicate FetchedPrices(prices: seq<Price>, db: Db, rows: seq<Row>) {
    forall p :: p in prices <==> p in db.prices && Live(p) && p.material in MaterialsOf(rows)
  }

  // ---------------------------------------------------------------- current prices

  function MaterialsIn(prices: seq<Price>): set<nat> {
    set i | 0 <= i < |prices| :: prices[i].material
  }

  function CurrentPrices(prices: seq<Price>): Prices {
    map m | m in MaterialsIn(prices) && PickCurrent(Of(prices, m)).Some? :: PickCurrent(Of(prices, m)).value.net
  }

  /** A material is valued at the comparable price of its row in force, if one of its rows is live. */
  lemma PriceInForceIsUsed(prices: seq<Price>, m: nat)
    ensures m in CurrentPrices(prices) <==> exists p :: p in prices && p.material == m && p.voided == None
    ensures m in CurrentPrices(prices) ==>
      exists k: nat :: IsInForce(Of(prices, m), k) && CurrentPrices(prices)[m] == Of(prices, m)[k].net
  {
    var rows := Of(prices, m);
    OfMembers(prices, m);
    PickIsNewest(rows);
    InForceIsListed(prices, m);
    if PickCurrent(rows).Some? {
      InForceExactlyWhen(rows, PickCurrent(rows).value);
    }
  }

  lemma ListedMeansFound(prices: seq<Price>, m: nat)
    ensures Of(prices, m) != [] <==> m in MaterialsIn(prices)
  {
    OfMembers(prices, m);
    if m in MaterialsIn(prices) {
      var i :| 0 <= i < |prices| && prices[i].material == m;
      assert prices[i] in Of(prices, m);
    }
    assert Of(prices, m) != [] ==> Of(prices, m)[0] in prices;
  }

  method ComputeCurrentPrices(prices: seq<Price>) returns (current: Prices)
    ensures current == CurrentPrices(prices)
  {
    var byMaterial := Buckets(prices);
    assert forall m :: m in byMaterial <==> m in MaterialsIn(prices) by {
      forall m
        ensures Of(prices, m) != [] <==> m in MaterialsIn(prices)
      {
        ListedMeansFound(prices, m);
      }
    }
    current := map[];
    var pending := byMaterial.Keys;
    while pending != {}
      invariant pending <= byMaterial.Keys
      invariant forall m :: m in current <==> m in byMaterial.Keys - pending && PickCurrent(byMaterial[m]).Some?
      invariant forall m :: m in current ==> current[m] == PickCurrent(byMaterial[m]).value.net
      decreases |pending|
    {
      var m :| m in pending;
      var inForce := PickCurrent(byMaterial[m]);
      if inForce.Some? {
        current := current[m := inForce.value.net];
      }
      pending := pending - {m};
    }
  }

  // ---------------------------------------------------------------- one, and many

  /** `cost(id)`, from the rows and prices the database returned. */
  method CostOfOne(rows: seq<Row>, prices: seq<Price>, lookups: Lookups) returns (cost: Cost)
    ensures cost == CostOf(Inputs(rows, lookups), CurrentPrices(prices))
  {
    var current := ComputeCurrentPrices(prices);
    cost := ComputeAcuCost(Inputs(rows, lookups), current);
  }

  /**
   * `costsByIds`: one pass over all the rows to share them out, one over the recipes to value them. `acus` is what the
   * database found of the ids asked for; an id that is no recipe is not in the answer.
   */
  method CostsOfMany(acus: seq<nat>, rows: seq<Row>, prices: seq<Price>, lookups: Lookups,
      ghost db: Db, ghost ids: set<nat>)
      returns (costs: map<nat, Cost>)
    requires forall a :: a in acus <==> a in Found(db, ids)
    ensures forall a :: a in costs <==> a in ids && a in db.acus
    ensures forall a :: a in costs ==> costs[a] == CostOf(Share(rows, a, lookups), CurrentPrices(prices))
  {
    var current := ComputeCurrentPrices(prices);
    var byAcu := ShareOut(rows, lookups);
    costs := map[];
    for i := 0 to |acus|
      invariant forall a :: a in costs <==> a in acus[..i]
      invariant forall a :: a in costs ==> costs[a] == CostOf(Share(rows, a, lookups), current)
    {
      var inputs := if acus[i] in byAcu then byAcu[acus[i]] else [];
      var cost := ComputeAcuCost(inputs, current);
      costs := costs[acus[i] := cost];
    }
    assert forall a :: a in Found(db, ids) <==> a in ids && a in db.acus;
    assert acus[..|acus|] == acus;
  }

  /** The inputs of one recipe among these rows. */
  function Share(rows: seq<Row>, acu: nat, l: Lookups): seq<Item> {
    Inputs(Where(rows, InAcu(acu)), l)
  }

  /** The rows of a recipe are shared out in order, and no other. */
  lemma ShareNext(rows: seq<Row>, row: Row, acu: nat, l: Lookups)
    ensures Share(rows + [row], acu, l) == Share(rows, acu, l) + (if row.acu == acu then [BuildInput(row, l)] else [])
  {
    assert (rows + [row])[..|rows|] == rows;
    var part := Where(rows, InAcu(acu));
    assert (part + [row])[..|part|] == part;
  }

  method ShareOut(rows: seq<Row>, lookups: Lookups) returns (byAcu: map<nat, seq<Item>>)
    ensures forall a :: a in byAcu ==> byAcu[a] == Share(rows, a, lookups)
    ensures forall a :: a !in byAcu ==> Share(rows, a, lookups) == []
  {
    byAcu := map[];
    for i := 0 to |rows|
      invariant forall a :: a in byAcu ==> byAcu[a] == Share(rows[..i], a, lookups)
      invariant forall a :: a !in byAcu ==> Share(rows[..i], a, lookups) == []
    {
      var row := rows[i];
      assert rows[..i + 1] == rows[..i] + [row];
      forall a
        ensures Share(rows[..i + 1], a, lookups)
                == Share(rows[..i], a, lookups) + (if row.acu == a then [BuildInput(row, lookups)] else [])
      {
        ShareNext(rows[..i], row, a, lookups);
      }
      var before := if row.acu in byAcu then byAcu[row.acu] else [];
      byAcu := byAcu[row.acu := before + [BuildInput(row, lookups)]];
    }
    assert rows[..|rows|] == rows;
  }

  // ---------------------------------------------------------------- they agree

  lemma {:induction false} WhereCounts<T>(xs: seq<T>, keep: T -> bool, x: T)
    ensures multiset(Where(xs, keep))[x] == if keep(x) then multiset(xs)[x] else 0
  {
    if xs != [] {
      var n := |xs| - 1;
      WhereCounts(xs[..n], keep, x);
      assert xs == xs[..n] + [xs[n]];
    }
  }

  /** The lines of one recipe among those of many are the lines of that recipe. */
  lemma SameRows(db: Db, many: seq<Row>, one: seq<Row>, acus: set<nat>, acu: nat)
    requires acu in acus && Fetched(many, db.rows, InAcus(acus)) && Fetched(one, db.rows, InAcu(acu))
    ensures multiset(Where(many, InAcu(acu))) == multiset(one)
  {
    forall row: Row
      ensures multiset(Where(many, InAcu(acu)))[row] == multiset(one)[row]
    {
      WhereCounts(many, InAcu(acu), row);
      WhereCounts(db.rows, InAcus(acus), row);
      WhereCounts(db.rows, InAcu(acu), row);
    }
  }

  lemma {:induction false} InputsPermutation(xs: seq<Row>, ys: seq<Row>, l: Lookups)
    requires multiset(xs) == multiset(ys)
    ensures multiset(Inputs(xs, l)) == multiset(Inputs(ys, l))
  {
    forall item: Item
      ensures multiset(Inputs(xs, l))[item] == multiset(Inputs(ys, l))[item]
    {
      InputsCount(xs, l, item);
      InputsCount(ys, l, item);
      SumOverPermutation(xs, ys, Becomes(l, item));
    }
  }

  function Becomes(l: Lookups, item: Item): Row -> int {
    (row: Row) => if BuildInput(row, l) == item then 1 else 0
  }

  lemma {:induction false} InputsCount(rows: seq<Row>, l: Lookups, item: Item)
    ensures multiset(Inputs(rows, l))[item] == SumOver(rows, Becomes(l, item))
  {
    if rows != [] {
      InputsCount(rows[..|rows| - 1], l, item);
    }
  }

  /** Loading only the materials of the rows at hand changes nothing. */
  lemma {:induction false} InputsLocal(rows: seq<Row>, l: Lookups, wider: Lookups)
    requires l.units == wider.units
    requires forall row :: row in rows && row.material.Some? ==>
      var m := row.material.value;
      (m in l.materialUnit <==> m in wider.materialUnit)
        && (m in l.materialUnit ==> l.materialUnit[m] == wider.materialUnit[m])
    ensures Inputs(rows, l) == Inputs(rows, wider)
  {
    if rows != [] {
      var n := |rows| - 1;
      InputsLocal(rows[..n], l, wider);
      assert rows[n] in rows;
    }
  }

  lemma MaterialsOfMember(rows: seq<Row>, row: Row)
    requires row in rows && row.material.Some?
    ensures row.material.value in MaterialsOf(rows)
  {
    var i :| 0 <= i < |rows| && rows[i] == row;
  }

  lemma LookupsAreEnough(db: Db, rows: seq<Row>, part: seq<Row>)
    requires forall row :: row in part ==> row in rows
    ensures Inputs(part, LookupsFor(db, rows)) == Inputs(part, db.lookups)
  {
    forall row | row in part && row.material.Some?
      ensures row.material.value in MaterialsOf(rows)
    {
      MaterialsOfMember(rows, row);
    }
    InputsLocal(part, LookupsFor(db, rows), db.lookups);
  }

  /** A material of the recipe has the same price in force whether its prices were read alone or with many others. */
  lemma SameCurrentPrice(db: Db, many: seq<Row>, manyPrices: seq<Price>, one: seq<Row>, onePrices: seq<Price>, m: nat)
    requires DistinctPerMaterial(db.prices) && FetchedPrices(manyPrices, db, many) && FetchedPrices(onePrices, db, one)
    requires m in MaterialsOf(many) && m in MaterialsOf(one)
    ensures m in CurrentPrices(manyPrices) <==> m in CurrentPrices(onePrices)
    ensures m in CurrentPrices(manyPrices) ==> CurrentPrices(manyPrices)[m] == CurrentPrices(onePrices)[m]
  {
    OfMembers(manyPrices, m);
    OfMembers(onePrices, m);
    OfMembers(db.prices, m);
    assert DistinctStamps(Of(db.prices, m));
    PickIgnoresOrder(Of(manyPrices, m), Of(onePrices, m));
    InForceIsListed(manyPrices, m);
    InForceIsListed(onePrices, m);
  }

  lemma InForceIsListed(prices: seq<Price>, m: nat)
    ensures PickCurrent(Of(prices, m)).Some? ==> m in MaterialsIn(prices)
  {
    PickIsNewest(Of(prices, m));
    OfMembers(prices, m);
    if PickCurrent(Of(prices, m)).Some? {
      var i :| 0 <= i < |prices| && prices[i] == PickCurrent(Of(prices, m)).value;
    }
  }

  lemma {:induction false} InputsKeepMaterials(rows: seq<Row>, l: Lookups)
    ensures forall item :: item in Inputs(rows, l) && item.material.Some? ==> item.material.value in MaterialsOf(rows)
  {
    if rows != [] {
      var n := |rows| - 1;
      InputsKeepMaterials(rows[..n], l);
      forall m | m in MaterialsOf(rows[..n])
        ensures m in MaterialsOf(rows)
      {
        var i :| 0 <= i < n && rows[..n][i].material == Some(m);
        assert rows[i].material == Some(m);
      }
      assert rows[n] in rows;
    }
  }

  /**
   * For every recipe that exists, `costsByIds` over any ids that include it gives the totals and the missing
   * materials that `cost` gives for it alone, in whatever order the database returns any of the rows.
   */
  lemma BatchAgreesWithSingle(db: Db, ids: set<nat>, acu: nat,
                              many: seq<Row>, manyPrices: seq<Price>, one: seq<Row>, onePrices: seq<Price>)
    requires acu in Found(db, ids) && DistinctPerMaterial(db.prices)
    requires Fetched(many, db.rows, InAcus(Found(db, ids))) && FetchedPrices(manyPrices, db, many)
    requires Fetched(one, db.rows, InAcu(acu)) && FetchedPrices(onePrices, db, one)
    ensures SameTotals(CostOf(Share(many, acu, LookupsFor(db, many)), CurrentPrices(manyPrices)),
                       CostOf(Inputs(one, LookupsFor(db, one)), CurrentPrices(onePrices)))
  {
    var part := Where(many, InAcu(acu));
    SameRows(db, many, one, Found(db, ids), acu);
    assert forall row :: row in part <==> row in multiset(part);
    assert forall row :: row in one <==> row in multiset(one);
    WhereMembers(many, InAcu(acu));
    LookupsAreEnough(db, many, part);
    LookupsAreEnough(db, one, one);
    InputsPermutation(part, one, db.lookups);
    OrderIsIrrelevant(Inputs(part, db.lookups), Inputs(one, db.lookups), CurrentPrices(manyPrices));
    PricesAgree(db, many, manyPrices, one, onePrices);
    CostIsLocal(Inputs(one, db.lookups), CurrentPrices(manyPrices), CurrentPrices(onePrices));
  }

  lemma {:induction false} WhereMembers<T>(xs: seq<T>, keep: T -> bool)
    ensures forall x :: x in Where(xs, keep) <==> x in xs && keep(x)
  {
    if xs != [] {
      var n := |xs| - 1;
      WhereMembers(xs[..n], keep);
      assert xs == xs[..n] + [xs[n]];
    }
  }

  lemma PricesAgree(db: Db, many: seq<Row>, manyPrices: seq<Price>, one: seq<Row>, onePrices: seq<Price>)
    requires DistinctPerMaterial(db.prices) && FetchedPrices(manyPrices, db, many) && FetchedPrices(onePrices, db, one)
    requires forall row :: row in one ==> row in many
    ensures SameFor(Inputs(one, db.lookups), CurrentPrices(manyPrices), CurrentPrices(onePrices))
  {
    InputsKeepMaterials(one, db.lookups);
    forall m | m in MaterialsOf(one)
      ensures m in CurrentPrices(manyPrices) <==> m in CurrentPrices(onePrices)
      ensures m in CurrentPrices(manyPrices) ==> CurrentPrices(manyPrices)[m] == CurrentPrices(onePrices)[m]
    {
      var i :| 0 <= i < |one| && one[i].material == Some(m);
      MaterialsOfMember(many, one[i]);
      SameCurrentPrice(db, many, manyPrices, one, onePrices, m);
    }
  }
}
