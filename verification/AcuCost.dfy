/**
 * The unit cost of a recipe (stp-api/src/costs/acu-cost.ts): materials, labour and equipment valued with the prices
 * in force. Quantities and prices are exact reals; every subtotal is rounded to four decimals and counted in
 * ten-thousandths, so that sums are exact as they are meant to be.
 */
module AcuCost {
  import opened Wrappers
  import opened Rounding

  // ---------------------------------------------------------------- recipe and result

  datatype Kind = Material | Labor | Equipment

  datatype Basis = Yield | PctMaterials

  /** A line of the recipe. `None` stands for a number that is absent or not finite. */
  datatype Item = Item(
    id: nat,
    kind: Kind,
    material: Option<nat>,
    quantity: Option<real>,
    unitCost: Option<real>,
    basis: Option<Basis>,
    pct: Option<real>,
    wastePct: Option<real>)

  datatype Source = FromCatalog | Manual | FromPct

  datatype Line = Line(
    item: nat, kind: Kind, effectiveQuantity: real, unitCost: real, subtotal: int, source: Source, missingPrice: bool)

  datatype Cost = Cost(
    lines: seq<Line>, material: int, labor: int, equipment: int, direct: int, incomplete: bool, missing: set<nat>)

  type Prices = map<nat, real>

  /** The number itself unless it is negative or not there. */
  function Positive(n: Option<real>): (r: real)
    ensures r >= 0.0 && (r == 0.0 || n == Some(r)) && (n.Some? && n.value > 0.0 ==> r > 0.0)
  {
    if n.Some? && n.value >= 0.0 then n.value else 0.0
  }

  predicate IsPct(item: Item) {
    item.kind != Material && item.basis == Some(PctMaterials)
  }

  // ---------------------------------------------------------------- one line

  function EffectiveQuantity(item: Item): real {
    Round4(Positive(item.quantity) * (1.0 + Positive(item.wastePct) / 100.0))
  }

  /** A material takes the cost written in the recipe before the one of the catalogue. */
  function SourceOf(item: Item, prices: Prices): Option<Source> {
    if item.kind != Material || item.unitCost.Some? then Some(Manual)
    else if item.material.Some? && item.material.value in prices then Some(FromCatalog)
    else None
  }

  function UnitCost(item: Item, prices: Prices): (r: real)
    ensures r >= 0.0
  {
    match SourceOf(item, prices)
    case Some(FromCatalog) => Positive(Some(prices[item.material.value]))
    case Some(_) => Positive(item.unitCost)
    case None => 0.0
  }

  function Subtotal(quantity: real, unitCost: real): int {
    Ticks(quantity * unitCost)
  }

  function PctSubtotal(materialCost: int, pct: real): int {
    Ticks(Amount(materialCost) * pct / 100.0)
  }

  function RateLine(item: Item, prices: Prices): Line {
    var source := SourceOf(item, prices);
    Line(item.id, item.kind, EffectiveQuantity(item), Round4(UnitCost(item, prices)),
         Subtotal(EffectiveQuantity(item), UnitCost(item, prices)),
         if source.Some? then source.value else Manual, source.None?)
  }

  function PctLine(item: Item, materialCost: int): Line {
    Line(item.id, item.kind, Positive(item.pct), Amount(materialCost), PctSubtotal(materialCost, Positive(item.pct)),
      FromPct, false)
  }

  // ---------------------------------------------------------------- the whole recipe

  /** First pass: every line but the percentages. */
  function RateLines(items: seq<Item>, prices: Prices): seq<Line> {
    if items == [] then []
    else
      var before := RateLines(items[..|items| - 1], prices);
      var last := items[|items| - 1];
      if IsPct(last) then before else before + [RateLine(last, prices)]
  }

  /** Second pass: the percentages, over a cost of materials that is already known. */
  function PctLines(items: seq<Item>, materialCost: int): seq<Line> {
    if items == [] then []
    else
      var before := PctLines(items[..|items| - 1], materialCost);
      var last := items[|items| - 1];
      if IsPct(last) then before + [PctLine(last, materialCost)] else before
  }

  function SumOf(lines: seq<Line>, kind: Kind): int {
    if lines == [] then 0
    else
      var last := lines[|lines| - 1];
      SumOf(lines[..|lines| - 1], kind) + (if last.kind == kind then last.subtotal else 0)
  }

  function MissingMaterials(items: seq<Item>, prices: Prices): set<nat> {
    set i | 0 <= i < |items| && SourceOf(items[i], prices).None? && items[i].material.Some? :: items[i].material.value
  }

  predicate AnyMissing(lines: seq<Line>) {
    exists i :: 0 <= i < |lines| && lines[i].missingPrice
  }

  function CostOf(items: seq<Item>, prices: Prices): Cost {
    var rate := RateLines(items, prices);
    var material := SumOf(rate, Material);
    var lines := rate + PctLines(items, material);
    var labor, equipment := SumOf(lines, Labor), SumOf(lines, Equipment);
    Cost(lines, material, labor, equipment, material + labor + equipment, AnyMissing(lines),
      MissingMaterials(items, prices))
  }

  /** The body of the first loop. `missing` is the material whose price is not there. */
  method ValueItem(item: Item, prices: Prices) returns (line: Line, missing: set<nat>)
    ensures line == RateLine(item, prices)
    ensures missing == MissingOf(item, prices)
  {
    missing := {};
    var unitCost, source, missingPrice := 0.0, Manual, false;
    if item.kind == Material {
      if item.unitCost.Some? {
        unitCost := Positive(item.unitCost);
      } else if item.material.Some? && item.material.value in prices {
        unitCost := Positive(Some(prices[item.material.value]));
        source := FromCatalog;
      } else {
        missingPrice := true;
        if item.material.Some? {
          missing := {item.material.value};
        }
      }
    } else {
      unitCost := Positive(item.unitCost);
    }
    var quantity := EffectiveQuantity(item);
    line := Line(item.id, item.kind, quantity, Round4(unitCost), Subtotal(quantity, unitCost), source, missingPrice);
  }

  method ComputeAcuCost(items: seq<Item>, prices: Prices) returns (cost: Cost)
    ensures cost == CostOf(items, prices)
  {
    var lines: seq<Line> := [];
    var missing: set<nat> := {};
    for i := 0 to |items|
      invariant lines == RateLines(items[..i], prices)
      invariant missing == MissingMaterials(items[..i], prices)
    {
      assert items[..i + 1] == items[..i] + [items[i]] && items[..i + 1][..i] == items[..i];
      MissingGrows(items[..i], items[i], prices);
      if !IsPct(items[i]) {
        var line, lacking := ValueItem(items[i], prices);
        lines := lines + [line];
        missing := missing + lacking;
      }
    }
    assert items[..|items|] == items;

    var material := SumBy(lines, Material);
    var percentages := ValuePercentages(items, material);
    lines := lines + percentages;
    var labor := SumBy(lines, Labor);
    var equipment := SumBy(lines, Equipment);
    cost := Cost(lines, material, labor, equipment, material + labor + equipment, AnyMissing(lines), missing);
  }

  /** The second loop. */
  method ValuePercentages(items: seq<Item>, material: int) returns (lines: seq<Line>)
    ensures lines == PctLines(items, material)
  {
    lines := [];
    for i := 0 to |items|
      invariant lines == PctLines(items[..i], material)
    {
      assert items[..i + 1][..i] == items[..i];
      if IsPct(items[i]) {
        var pct := Positive(items[i].pct);
        lines := lines + [Line(items[i].id, items[i].kind, pct, Amount(material), PctSubtotal(material, pct),
          FromPct, false)];
      }
    }
    assert items[..|items|] == items;
  }

  method SumBy(lines: seq<Line>, kind: Kind) returns (sum: int)
    ensures sum == SumOf(lines, kind)
  {
    sum := 0;
    for i := 0 to |lines|
      invariant sum == SumOf(lines[..i], kind)
    {
      assert lines[..i + 1][..i] == lines[..i];
      if lines[i].kind == kind {
        sum := sum + lines[i].subtotal;
      }
    }
    assert lines[..|lines|] == lines;
  }

  function MissingOf(item: Item, prices: Prices): set<nat> {
    if SourceOf(item, prices).None? && item.material.Some? then {item.material.value} else {}
  }

  lemma MissingGrows(items: seq<Item>, item: Item, prices: Prices)
    ensures MissingMaterials(items + [item], prices) == MissingMaterials(items, prices) + MissingOf(item, prices)
  {
    var more := items + [item];
    forall m | m in MissingMaterials(items, prices)
      ensures m in MissingMaterials(more, prices)
    {
      var i :| 0 <= i < |items| && SourceOf(items[i], prices).None? && items[i].material == Some(m);
      assert more[i] == items[i];
    }
    assert more[|items|] == item;
  }

  // ---------------------------------------------------------------- the lines and the totals

  function Ids(lines: seq<Line>): seq<nat> {
    seq(|lines|, i requires 0 <= i < |lines| => lines[i].item)
  }

  function ItemIds(items: seq<Item>): seq<nat> {
    seq(|items|, i requires 0 <= i < |items| => items[i].id)
  }

  lemma {:induction false} PassesShareTheItems(items: seq<Item>, prices: Prices, materialCost: int)
    ensures multiset(Ids(RateLines(items, prices))) + multiset(Ids(PctLines(items, materialCost))) ==
      multiset(ItemIds(items))
  {
    if items != [] {
      var n := |items| - 1;
      PassesShareTheItems(items[..n], prices, materialCost);
      assert ItemIds(items) == ItemIds(items[..n]) + [items[n].id];
      if IsPct(items[n]) {
        assert Ids(PctLines(items, materialCost)) == Ids(PctLines(items[..n], materialCost)) + [items[n].id];
      } else {
        assert Ids(RateLines(items, prices)) == Ids(RateLines(items[..n], prices)) + [items[n].id];
      }
    }
  }

  /** Every line of the recipe has exactly one line in the cost. */
  lemma OneLinePerItem(items: seq<Item>, prices: Prices)
    ensures multiset(Ids(CostOf(items, prices).lines)) == multiset(ItemIds(items))
  {
    var cost := CostOf(items, prices);
    PassesShareTheItems(items, prices, cost.material);
    assert Ids(cost.lines) == Ids(RateLines(items, prices)) + Ids(PctLines(items, cost.material));
  }

  function Total(lines: seq<Line>): int {
    if lines == [] then 0 else Total(lines[..|lines| - 1]) + lines[|lines| - 1].subtotal
  }

  lemma {:induction false} TotalByKind(lines: seq<Line>)
    ensures Total(lines) == SumOf(lines, Material) + SumOf(lines, Labor) + SumOf(lines, Equipment)
  {
    if lines != [] {
      TotalByKind(lines[..|lines| - 1]);
    }
  }

  lemma {:induction false} SumOfAppend(xs: seq<Line>, ys: seq<Line>, kind: Kind)
    ensures SumOf(xs + ys, kind) == SumOf(xs, kind) + SumOf(ys, kind)
  {
    if ys == [] {
      assert xs + ys == xs;
    } else {
      assert (xs + ys)[..|xs + ys| - 1] == xs + ys[..|ys| - 1];
      SumOfAppend(xs, ys[..|ys| - 1], kind);
    }
  }

  lemma SumOfLast(lines: seq<Line>, last: Line, kind: Kind)
    ensures SumOf(lines + [last], kind) == SumOf(lines, kind) + (if last.kind == kind then last.subtotal else 0)
  {
    assert (lines + [last])[..|lines|] == lines;
  }

  lemma {:induction false} NoPctOnMaterials(items: seq<Item>, materialCost: int)
    ensures SumOf(PctLines(items, materialCost), Material) == 0
  {
    if items != [] {
      var n := |items| - 1;
      NoPctOnMaterials(items[..n], materialCost);
      if IsPct(items[n]) {
        SumOfLast(PctLines(items[..n], materialCost), PctLine(items[n], materialCost), Material);
      }
    }
  }

  /** What a line adds to its kind. */
  function PartOf(kind: Kind): Line -> int {
    (line: Line) => if line.kind == kind then line.subtotal else 0
  }

  lemma {:induction false} SumOfIsASum(lines: seq<Line>, kind: Kind)
    ensures SumOf(lines, kind) == SumOver(lines, PartOf(kind))
  {
    if lines != [] {
      SumOfIsASum(lines[..|lines| - 1], kind);
    }
  }

  /** The breakdown adds up to the direct cost to the last ten-thousandth, and so does each kind to its own. */
  lemma LinesAddUp(items: seq<Item>, prices: Prices)
    ensures var cost := CostOf(items, prices);
      && Total(cost.lines) == cost.direct
      && SumOver(cost.lines, PartOf(Material)) == cost.material
      && SumOver(cost.lines, PartOf(Labor)) == cost.labor
      && SumOver(cost.lines, PartOf(Equipment)) == cost.equipment
  {
    var cost := CostOf(items, prices);
    SumOfIsASum(cost.lines, Material);
    SumOfIsASum(cost.lines, Labor);
    SumOfIsASum(cost.lines, Equipment);
    TotalByKind(cost.lines);
    SumOfAppend(RateLines(items, prices), PctLines(items, cost.material), Material);
    NoPctOnMaterials(items, cost.material);
  }

  // ---------------------------------------------------------------- what a line is worth

  /** Near enough to be the same number rounded: `slack` on either side. */
  predicate Within(x: real, y: real, slack: real) {
    -slack <= x - y <= slack
  }

  /**
   * A line is worth the quantity with its waste added, times the unit cost, up to half a ten-thousandth of quantity
   * and half a ten-thousandth of money.
   */
  lemma LineIsWorthItsRecipe(item: Item, prices: Prices)
    ensures var exact, c := Positive(item.quantity) * (1.0 + Positive(item.wastePct) / 100.0), UnitCost(item, prices);
      Within(Amount(RateLine(item, prices).subtotal), Worth(exact, c), 0.00005 * c + 0.00005)
  {
    var exact, c := Positive(item.quantity) * (1.0 + Positive(item.wastePct) / 100.0), UnitCost(item, prices);
    var q := EffectiveQuantity(item);
    RoundingError(exact);
    RoundingError(Worth(q, c));
    ProductOfRounded(exact, q, c, Amount(Subtotal(q, c)));
  }

  function Worth(quantity: real, unitCost: real): real {
    quantity * unitCost
  }

  lemma ProductOfRounded(exact: real, q: real, c: real, v: real)
    requires c >= 0.0 && Within(q, exact, 0.00005) && Within(v, Worth(q, c), 0.00005)
    ensures Within(v, Worth(exact, c), 0.00005 * c + 0.00005)
  {
    WorthOfNear(q, exact, c);
  }

  lemma WorthOfNear(q: real, exact: real, c: real)
    requires c >= 0.0 && Within(q, exact, 0.00005)
    ensures Within(Worth(q, c), Worth(exact, c), 0.00005 * c)
  {
    var above, below := exact + 0.00005 - q, q - exact + 0.00005;
    NonNegativeProduct(above, c);
    NonNegativeProduct(below, c);
    assert above * c == exact * c + 0.00005 * c - q * c;
    assert below * c == q * c + 0.00005 * c - exact * c;
  }

  /** The catalogue's cost counts only where the recipe gives none; a line without any is worth nothing. */
  lemma WhereTheCostComesFrom(item: Item, prices: Prices)
    ensures var line := RateLine(item, prices);
      var open := item.kind == Material && item.unitCost.None?;
      && (!open ==> UnitCost(item, prices) == Positive(item.unitCost) && !line.missingPrice && line.source == Manual)
      && (open && item.material.Some? && item.material.value in prices ==>
            UnitCost(item, prices) == Positive(Some(prices[item.material.value])) && !line.missingPrice
              && line.source == FromCatalog)
      && (line.missingPrice <==> open && (item.material.None? || item.material.value !in prices))
      && (line.missingPrice ==> line.subtotal == 0)
  {
    var q := EffectiveQuantity(item);
    assert q * 0.0 == 0.0;
    TicksOfAmount(0);
    assert Subtotal(q, 0.0) == 0;
  }

  /** A percentage line is worth that part of the cost of materials, to half a ten-thousandth. */
  lemma PctLineIsAPart(item: Item, materialCost: int)
    ensures Within(Amount(PctLine(item, materialCost).subtotal), Amount(materialCost) * Positive(item.pct) / 100.0,
      0.00005)
  {
    RoundingError(Amount(materialCost) * Positive(item.pct) / 100.0);
  }

  // ---------------------------------------------------------------- which line each item gets

  /** A line that is a percentage of the cost of materials. */
  predicate IsPercentage(item: Item, material: int, line: Line) {
    && line.effectiveQuantity == Positive(item.pct) && line.unitCost == Amount(material)
    && Within(Amount(line.subtotal), Amount(material) * Positive(item.pct) / 100.0, 0.00005)
    && line.source == FromPct && !line.missingPrice
  }

  /** A line that is a quantity with its waste, times the cost of the recipe before that of the catalogue. */
  predicate IsValued(item: Item, prices: Prices, line: Line) {
    var exact := Positive(item.quantity) * (1.0 + Positive(item.wastePct) / 100.0);
    var open := item.kind == Material && item.unitCost.None?;
    var known := item.material.Some? && item.material.value in prices;
    var c := if !open then Positive(item.unitCost)
      else if known then Positive(Some(prices[item.material.value])) else 0.0;
    && Within(line.effectiveQuantity, exact, 0.00005) && Within(line.unitCost, c, 0.00005)
    && Within(Amount(line.subtotal), Worth(exact, c), 0.00005 * c + 0.00005)
    && line.source == (if open && known then FromCatalog else Manual)
    && line.missingPrice == (open && !known)
  }

  /** Labour and equipment may be a percentage of the materials; everything else has a quantity and a cost. */
  predicate IsLineOf(item: Item, prices: Prices, material: int, line: Line) {
    && line.item == item.id && line.kind == item.kind
    && if item.kind != Material && item.basis == Some(PctMaterials) then IsPercentage(item, material, line)
       else IsValued(item, prices, line)
  }

  lemma RateLineIsValued(item: Item, prices: Prices)
    ensures IsValued(item, prices, RateLine(item, prices))
  {
    var line, c := RateLine(item, prices), UnitCost(item, prices);
    LineIsWorthItsRecipe(item, prices);
    WhereTheCostComesFrom(item, prices);
    QuantityIsNear(item);
    RoundingError(c);
    assert Within(line.unitCost, c, 0.00005);
  }

  lemma QuantityIsNear(item: Item)
    ensures Within(EffectiveQuantity(item), Positive(item.quantity) * (1.0 + Positive(item.wastePct) / 100.0), 0.00005)
  {
    RoundingError(Positive(item.quantity) * (1.0 + Positive(item.wastePct) / 100.0));
  }

  lemma LineOfItem(item: Item, prices: Prices, material: int)
    ensures IsLineOf(item, prices, material, if IsPct(item) then PctLine(item, material) else RateLine(item, prices))
  {
    PctLineIsAPart(item, material);
    RateLineIsValued(item, prices);
  }

  /** The items that are a percentage of the materials, or those that are not, in the order of the recipe. */
  function Part(items: seq<Item>, percentages: bool): seq<Item> {
    if items == [] then []
    else
      var last := items[|items| - 1];
      Part(items[..|items| - 1], percentages) +
        if (last.kind != Material && last.basis == Some(PctMaterials)) == percentages then [last] else []
  }

  lemma {:induction false} PartsAreTheItems(items: seq<Item>)
    ensures multiset(Part(items, false)) + multiset(Part(items, true)) == multiset(items)
  {
    if items != [] {
      PartsAreTheItems(items[..|items| - 1]);
      assert items == items[..|items| - 1] + [items[|items| - 1]];
    }
  }

  /** Line `i` is that of item `i`. */
  ghost predicate LineByLine(items: seq<Item>, prices: Prices, material: int, lines: seq<Line>) {
    |lines| == |items| && forall i :: 0 <= i < |items| ==> IsLineOf(items[i], prices, material, lines[i])
  }

  lemma {:induction false} FirstPass(items: seq<Item>, prices: Prices, material: int)
    ensures LineByLine(Part(items, false), prices, material, RateLines(items, prices))
  {
    if items != [] {
      FirstPass(items[..|items| - 1], prices, material);
      LineOfItem(items[|items| - 1], prices, material);
    }
  }

  lemma {:induction false} SecondPass(items: seq<Item>, prices: Prices, material: int)
    ensures LineByLine(Part(items, true), prices, material, PctLines(items, material))
  {
    if items != [] {
      SecondPass(items[..|items| - 1], prices, material);
      LineOfItem(items[|items| - 1], prices, material);
    }
  }

  /**
   * The lines of a cost are those of the items of the recipe, each item once and no other: labour and equipment given
   * as a percentage are that part of the cost of materials and come last, every other item is valued, and each of the
   * two groups keeps the order of the recipe.
   */
  lemma EachItemHasItsLine(items: seq<Item>, prices: Prices)
    ensures var cost, order := CostOf(items, prices), Part(items, false) + Part(items, true);
      multiset(order) == multiset(items) && LineByLine(order, prices, cost.material, cost.lines)
  {
    PartsAreTheItems(items);
    FirstPass(items, prices, CostOf(items, prices).material);
    SecondPass(items, prices, CostOf(items, prices).material);
  }

  // ---------------------------------------------------------------- totals as sums over the recipe

  function SumOver<T>(xs: seq<T>, f: T -> int): int {
    if xs == [] then 0 else SumOver(xs[..|xs| - 1], f) + f(xs[|xs| - 1])
  }

  /** What an item adds to the cost of its kind in the first pass. */
  function RatePart(prices: Prices, kind: Kind): Item -> int {
    (item: Item) => if IsPct(item) || item.kind != kind then 0
      else Subtotal(EffectiveQuantity(item), UnitCost(item, prices))
  }

  /** ... and in the second. */
  function PctPart(materialCost: int, kind: Kind): Item -> int {
    (item: Item) => if IsPct(item) && item.kind == kind then PctLine(item, materialCost).subtotal else 0
  }

  lemma RateLinesNext(items: seq<Item>, item: Item, prices: Prices, kind: Kind)
    ensures SumOf(RateLines(items + [item], prices), kind) ==
      SumOf(RateLines(items, prices), kind) + RatePart(prices, kind)(item)
  {
    assert (items + [item])[..|items|] == items;
    if !IsPct(item) {
      SumOfLast(RateLines(items, prices), RateLine(item, prices), kind);
    }
  }

  lemma {:induction false} RateLinesSum(items: seq<Item>, prices: Prices, kind: Kind)
    ensures SumOf(RateLines(items, prices), kind) == SumOver(items, RatePart(prices, kind))
  {
    if items != [] {
      var n := |items| - 1;
      RateLinesSum(items[..n], prices, kind);
      RateLinesNext(items[..n], items[n], prices, kind);
      assert items == items[..n] + [items[n]];
    }
  }

  lemma {:induction false} PctLinesSum(items: seq<Item>, materialCost: int, kind: Kind)
    ensures SumOf(PctLines(items, materialCost), kind) == SumOver(items, PctPart(materialCost, kind))
  {
    if items != [] {
      var n := |items| - 1;
      PctLinesSum(items[..n], materialCost, kind);
      if IsPct(items[n]) {
        SumOfLast(PctLines(items[..n], materialCost), PctLine(items[n], materialCost), kind);
      }
    }
  }

  lemma CostAsSums(items: seq<Item>, prices: Prices)
    ensures var c := CostOf(items, prices);
      && c.material == SumOver(items, RatePart(prices, Material))
      && c.labor == SumOver(items, RatePart(prices, Labor)) + SumOver(items, PctPart(c.material, Labor))
      && c.equipment == SumOver(items, RatePart(prices, Equipment)) + SumOver(items, PctPart(c.material, Equipment))
  {
    var c := CostOf(items, prices);
    RateLinesSum(items, prices, Material);
    RateLinesSum(items, prices, Labor);
    RateLinesSum(items, prices, Equipment);
    PctLinesSum(items, c.material, Labor);
    PctLinesSum(items, c.material, Equipment);
    SumOfAppend(RateLines(items, prices), PctLines(items, c.material), Labor);
    SumOfAppend(RateLines(items, prices), PctLines(items, c.material), Equipment);
  }

  lemma {:induction false} MissingLines(items: seq<Item>, prices: Prices, materialCost: int)
    ensures AnyMissing(RateLines(items, prices)) <==> exists item :: item in items && SourceOf(item, prices).None?
    ensures !AnyMissing(PctLines(items, materialCost))
  {
    if items != [] {
      var n := |items| - 1;
      MissingLines(items[..n], prices, materialCost);
      assert items == items[..n] + [items[n]];
      var rate := RateLines(items[..n], prices);
      if !IsPct(items[n]) {
        AnyMissingAppend(rate, [RateLine(items[n], prices)]);
        assert [RateLine(items[n], prices)][0].missingPrice == SourceOf(items[n], prices).None?;
      } else {
        AnyMissingAppend(PctLines(items[..n], materialCost), [PctLine(items[n], materialCost)]);
      }
    }
  }

  lemma AnyMissingAppend(xs: seq<Line>, ys: seq<Line>)
    ensures AnyMissing(xs + ys) <==> AnyMissing(xs) || AnyMissing(ys)
  {
    if AnyMissing(xs) {
      var i :| 0 <= i < |xs| && xs[i].missingPrice;
      assert (xs + ys)[i].missingPrice;
    }
    if AnyMissing(ys) {
      var i :| 0 <= i < |ys| && ys[i].missingPrice;
      assert (xs + ys)[|xs| + i].missingPrice;
    }
  }

  /** The cost is marked incomplete exactly when some material of the recipe has neither price nor cost of its own. */
  lemma IncompleteMeansMissing(items: seq<Item>, prices: Prices)
    ensures CostOf(items, prices).incomplete <==> exists item :: item in items && SourceOf(item, prices).None?
    ensures forall m :: m in CostOf(items, prices).missing <==>
      exists item :: item in items && SourceOf(item, prices).None? && item.material == Some(m)
  {
    var material := CostOf(items, prices).material;
    MissingLines(items, prices, material);
    AnyMissingAppend(RateLines(items, prices), PctLines(items, material));
    forall m
      ensures m in MissingMaterials(items, prices) <==>
        exists item :: item in items && SourceOf(item, prices).None? && item.material == Some(m)
    {
      if item :| item in items && SourceOf(item, prices).None? && item.material == Some(m) {
        var i :| 0 <= i < |items| && items[i] == item;
      }
    }
  }

  // ---------------------------------------------------------------- the cost is a floor

  lemma {:induction false} SumOverMonotone<T>(xs: seq<T>, f: T -> int, g: T -> int)
    requires forall x :: x in xs ==> f(x) <= g(x)
    ensures SumOver(xs, f) <= SumOver(xs, g)
  {
    if xs != [] {
      SumOverMonotone(xs[..|xs| - 1], f, g);
    }
  }

  /** Prices that are all still there, none of them lower. */
  ghost predicate AtLeast(prices: Prices, more: Prices) {
    forall m :: m in prices ==> m in more && prices[m] <= more[m]
  }

  lemma TimesMonotone(x: real, y: real, k: real)
    requires x <= y && k >= 0.0
    ensures x * k <= y * k && k * x <= k * y
  {
    assert (y - x) * k >= 0.0;
  }

  lemma QuantityNonNegative(item: Item)
    ensures EffectiveQuantity(item) >= 0.0
  {
    var q, w := Positive(item.quantity), 1.0 + Positive(item.wastePct) / 100.0;
    TimesMonotone(0.0, q, w);
    NonNegative(q * w);
  }

  lemma RatePartMonotone(item: Item, prices: Prices, more: Prices, kind: Kind)
    requires AtLeast(prices, more)
    ensures RatePart(prices, kind)(item) <= RatePart(more, kind)(item)
  {
    QuantityNonNegative(item);
    SubtotalMonotone(EffectiveQuantity(item), UnitCost(item, prices), UnitCost(item, more));
  }

  lemma SubtotalMonotone(quantity: real, low: real, high: real)
    requires quantity >= 0.0 && low <= high
    ensures Subtotal(quantity, low) <= Subtotal(quantity, high)
  {
    TimesMonotone(low, high, quantity);
    TicksMonotone(quantity * low, quantity * high);
  }

  lemma PctPartMonotone(item: Item, material: int, more: int, kind: Kind)
    requires material <= more
    ensures PctPart(material, kind)(item) <= PctPart(more, kind)(item)
  {
    var pct := Positive(item.pct);
    TimesMonotone(Amount(material), Amount(more), pct);
    TicksMonotone(Amount(material) * pct / 100.0, Amount(more) * pct / 100.0);
  }

  lemma KindMonotone(items: seq<Item>, prices: Prices, more: Prices, material: int, dearer: int, kind: Kind)
    requires AtLeast(prices, more) && material <= dearer
    ensures SumOver(items, RatePart(prices, kind)) <= SumOver(items, RatePart(more, kind))
    ensures SumOver(items, PctPart(material, kind)) <= SumOver(items, PctPart(dearer, kind))
  {
    forall item | item in items
      ensures RatePart(prices, kind)(item) <= RatePart(more, kind)(item)
      ensures PctPart(material, kind)(item) <= PctPart(dearer, kind)(item)
    {
      RatePartMonotone(item, prices, more, kind);
      PctPartMonotone(item, material, dearer, kind);
    }
    SumOverMonotone(items, RatePart(prices, kind), RatePart(more, kind));
    SumOverMonotone(items, PctPart(material, kind), PctPart(dearer, kind));
  }

  /** Adding missing prices or raising prices never lowers any part of the cost, and never makes it incomplete. */
  lemma CostIsAFloor(items: seq<Item>, prices: Prices, more: Prices)
    requires AtLeast(prices, more)
    ensures var low, high := CostOf(items, prices), CostOf(items, more);
      && low.material <= high.material && low.labor <= high.labor && low.equipment <= high.equipment
      && low.direct <= high.direct
      && high.missing <= low.missing && (high.incomplete ==> low.incomplete)
  {
    CostAsSums(items, prices);
    CostAsSums(items, more);
    KindMonotone(items, prices, more, 0, 0, Material);
    var material, dearer := CostOf(items, prices).material, CostOf(items, more).material;
    KindMonotone(items, prices, more, material, dearer, Labor);
    KindMonotone(items, prices, more, material, dearer, Equipment);
    IncompleteMeansMissing(items, prices);
    IncompleteMeansMissing(items, more);
    forall item | item in items && SourceOf(item, more).None?
      ensures SourceOf(item, prices).None?
    {
    }
  }

  /** Two price lists that agree on the materials of the recipe. */
  ghost predicate SameFor(items: seq<Item>, prices: Prices, others: Prices) {
    forall item :: item in items && item.material.Some? ==>
      var m := item.material.value;
      (m in prices <==> m in others) && (m in prices ==> prices[m] == others[m])
  }

  lemma {:induction false} RateLinesSame(items: seq<Item>, prices: Prices, others: Prices)
    requires forall item :: item in items ==> UnitCost(item, prices) == UnitCost(item, others)
    requires forall item :: item in items ==> SourceOf(item, prices) == SourceOf(item, others)
    ensures RateLines(items, prices) == RateLines(items, others)
    ensures MissingMaterials(items, prices) == MissingMaterials(items, others)
  {
    if items != [] {
      var n := |items| - 1;
      RateLinesSame(items[..n], prices, others);
      assert items == items[..n] + [items[n]];
      MissingGrows(items[..n], items[n], prices);
      MissingGrows(items[..n], items[n], others);
      assert RateLine(items[n], prices) == RateLine(items[n], others);
    }
  }

  /** Only the prices of its own materials count. */
  lemma CostIsLocal(items: seq<Item>, prices: Prices, others: Prices)
    requires SameFor(items, prices, others)
    ensures CostOf(items, prices) == CostOf(items, others)
  {
    RateLinesSame(items, prices, others);
  }

  /** A complete cost is no longer a floor but the cost: no price added to the catalogue changes it. */
  lemma CompleteCostIsFinal(items: seq<Item>, prices: Prices, more: Prices)
    requires !CostOf(items, prices).incomplete
    requires forall m :: m in prices ==> m in more && more[m] == prices[m]
    ensures CostOf(items, more) == CostOf(items, prices)
  {
    IncompleteMeansMissing(items, prices);
    RateLinesSame(items, prices, more);
  }

  // ---------------------------------------------------------------- order does not matter

  lemma {:induction false} SumOverAppend<T>(xs: seq<T>, ys: seq<T>, f: T -> int)
    ensures SumOver(xs + ys, f) == SumOver(xs, f) + SumOver(ys, f)
  {
    if ys == [] {
      assert xs + ys == xs;
    } else {
      assert (xs + ys)[..|xs + ys| - 1] == xs + ys[..|ys| - 1];
      SumOverAppend(xs, ys[..|ys| - 1], f);
    }
  }

  lemma SumOverLast<T>(xs: seq<T>, x: T, f: T -> int)
    ensures SumOver(xs + [x], f) == SumOver(xs, f) + f(x)
  {
    assert (xs + [x])[..|xs|] == xs;
  }

  lemma SumOverMiddle<T>(head: seq<T>, x: T, tail: seq<T>, f: T -> int)
    ensures SumOver((head + [x]) + tail, f) == SumOver(head + tail, f) + f(x)
  {
    SumOverAppend(head + [x], tail, f);
    SumOverLast(head, x, f);
    SumOverAppend(head, tail, f);
  }

  lemma NothingInCommon<T>(ys: seq<T>)
    ensures multiset(ys) == multiset([]) ==> ys == []
  {
    assert |multiset(ys)| == |ys|;
  }

  lemma {:induction false} SumOverPermutation<T>(xs: seq<T>, ys: seq<T>, f: T -> int)
    requires multiset(xs) == multiset(ys)
    ensures SumOver(xs, f) == SumOver(ys, f)
  {
    if xs == [] {
      NothingInCommon(ys);
    } else {
      var n := |xs| - 1;
      assert xs == xs[..n] + [xs[n]];
      assert xs[n] in multiset(ys);
      var i :| 0 <= i < |ys| && ys[i] == xs[n];
      var head, tail := ys[..i], ys[i + 1..];
      assert ys == (head + [xs[n]]) + tail;
      assert multiset(head + tail) == multiset(ys) - multiset{xs[n]} == multiset(xs[..n]);
      SumOverPermutation(xs[..n], head + tail, f);
      SumOverMiddle(head, xs[n], tail, f);
    }
  }

  /** Everything of a cost but the order of its lines. */
  ghost predicate SameTotals(a: Cost, b: Cost) {
    && a.material == b.material && a.labor == b.labor && a.equipment == b.equipment && a.direct == b.direct
    && a.incomplete == b.incomplete && a.missing == b.missing
  }

  /** Reordering the recipe changes no total and no missing material. */
  lemma OrderIsIrrelevant(items: seq<Item>, other: seq<Item>, prices: Prices)
    requires multiset(items) == multiset(other)
    ensures SameTotals(CostOf(items, prices), CostOf(other, prices))
  {
    CostAsSums(items, prices);
    CostAsSums(other, prices);
    SumOverPermutation(items, other, RatePart(prices, Material));
    SumOverPermutation(items, other, RatePart(prices, Labor));
    SumOverPermutation(items, other, RatePart(prices, Equipment));
    var material := CostOf(items, prices).material;
    SumOverPermutation(items, other, PctPart(material, Labor));
    SumOverPermutation(items, other, PctPart(material, Equipment));
    IncompleteMeansMissing(items, prices);
    IncompleteMeansMissing(other, prices);
    assert forall item :: item in items <==> item in multiset(items);
    assert forall item :: item in other <==> item in multiset(other);
  }
}
