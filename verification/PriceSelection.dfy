/**
 * Which price of a material is in force (stp-api/src/costs/price-selection.ts), and what the summary of a page of
 * materials makes of a read that is cut short (stp-api/src/costs/materials.service.ts).
 */
module PriceSelection {
  import opened Wrappers
  import opened Rounding

  // ---------------------------------------------------------------- rows

  datatype VoidReason = Given(text: string) | NoLongerPriced | Replaced | ExpenseGone

  datatype VoidMark = VoidMark(at: nat, user: Option<nat>, reason: VoidReason)

  /** A row of `material_prices`. `date` is the day it is valid from; `createdAt` breaks ties. */
  datatype Price = Price(
    id: nat,
    material: nat,
    supplier: Option<nat>,
    price: real,
    itbisIncluded: bool,
    net: real,
    date: nat,
    createdAt: nat,
    expense: Option<nat>,
    voided: Option<VoidMark>)

  predicate Live(p: Price) {
    p.voided.None?
  }

  // ---------------------------------------------------------------- the price that can be compared

  /** What a price was quoted in. `exchangeRate` is DOP per unit of the currency. */
  datatype Terms = Terms(inDop: bool, exchangeRate: Option<real>, itbisIncluded: bool, itbisRate: real,
    discountPct: real)

  function Exchange(t: Terms): real {
    if t.inDop then 1.0 else if t.exchangeRate.Some? then t.exchangeRate.value else 0.0
  }

  function TaxFactor(t: Terms): real {
    1.0 + (if t.itbisIncluded then t.itbisRate else 0.0) / 100.0
  }

  predicate Priceable(price: real, t: Terms) {
    price >= 0.0 && Exchange(t) > 0.0 && 0.0 <= t.discountPct < 100.0 && TaxFactor(t) >= 1.0
  }

  /** In DOP, after discount, tax still in. */
  function Discounted(price: real, t: Terms): real {
    price * Exchange(t) * (1.0 - t.discountPct / 100.0)
  }

  /** In DOP, after discount, without ITBIS. `None` for the terms the source rejects with an error. */
  function NetUnitPrice(price: real, t: Terms): Option<real> {
    if Priceable(price, t) then Some(Round4(Discounted(price, t) / TaxFactor(t))) else None
  }

  lemma BackWithinHalfATick(dop: real, factor: real)
    requires factor >= 1.0
    ensures dop - 0.00005 * factor <= Round4(dop / factor) * factor <= dop + 0.00005 * factor
  {
    var q := dop / factor;
    assert q * factor == dop;
    RoundingError(q);
    TimesFactor(Round4(q), q, factor);
  }

  /** Adding the tax back gives the discounted price in DOP, up to half a ten-thousandth before tax. */
  lemma NetRecoversThePrice(price: real, t: Terms)
    requires Priceable(price, t)
    ensures var net, dop := NetUnitPrice(price, t).value, Discounted(price, t);
      dop - 0.00005 * TaxFactor(t) <= net * TaxFactor(t) <= dop + 0.00005 * TaxFactor(t)
  {
    BackWithinHalfATick(Discounted(price, t), TaxFactor(t));
  }

  /**
   * A price can be compared exactly when it is not negative, has a rate of exchange if it is not in DOP, a discount
   * under the whole and no negative tax. The comparable price with its tax added back is what is paid: the price in
   * DOP less its discount, up to half a ten-thousandth before tax.
   */
  lemma NetPriceInFull(price: real, t: Terms)
    ensures NetUnitPrice(price, t).Some? <==>
      && price >= 0.0 && (t.inDop || (t.exchangeRate.Some? && t.exchangeRate.value > 0.0))
      && 0.0 <= t.discountPct < 100.0 && (t.itbisIncluded ==> t.itbisRate >= 0.0)
    ensures NetUnitPrice(price, t).Some? ==>
      var net, dop := NetUnitPrice(price, t).value, if t.inDop then price else price * t.exchangeRate.value;
      var paid, factor := dop - dop * t.discountPct / 100.0, if t.itbisIncluded then 1.0 + t.itbisRate / 100.0 else 1.0;
      -0.00005 * factor <= net * factor - paid <= 0.00005 * factor
  {
    if Priceable(price, t) {
      NetRecoversThePrice(price, t);
      LessItsPart(price * Exchange(t), t.discountPct);
    }
  }

  lemma LessItsPart(x: real, pct: real)
    ensures x * (1.0 - pct / 100.0) == x - x * pct / 100.0
  {
  }

  lemma TimesFactor(net: real, q: real, factor: real)
    requires factor >= 1.0 && q - 0.00005 <= net <= q + 0.00005
    ensures q * factor - 0.00005 * factor <= net * factor <= q * factor + 0.00005 * factor
  {
    var above, below := q + 0.00005 - net, net - q + 0.00005;
    NonNegativeProduct(above, factor);
    NonNegativeProduct(below, factor);
    assert above * factor == q * factor + 0.00005 * factor - net * factor;
    assert below * factor == net * factor - q * factor + 0.00005 * factor;
  }

  // ---------------------------------------------------------------- most recent first

  predicate Newer(a: Price, b: Price) {
    a.date > b.date || (a.date == b.date && a.createdAt > b.createdAt)
  }

  /**
   * `pickCurrentPrice`: the head of the live rows sorted most recent first. The sort is stable, so among equals the
   * first in the list wins.
   */
  function PickCurrent(rows: seq<Price>): Option<Price> {
    if rows == [] then None
    else
      var before := PickCurrent(rows[..|rows| - 1]);
      var last := rows[|rows| - 1];
      if Live(last) && (before.None? || Newer(last, before.value)) then Some(last) else before
  }

  /** Row `k` is live, every live row before it is older by day or else by capture, and none after it is newer. */
  ghost predicate IsInForce(rows: seq<Price>, k: nat) {
    && k < |rows| && rows[k].voided.None?
    && (forall j :: 0 <= j < k && rows[j].voided.None? ==>
          rows[j].date < rows[k].date || (rows[j].date == rows[k].date && rows[j].createdAt < rows[k].createdAt))
    && (forall j :: k < j < |rows| && rows[j].voided.None? ==>
          rows[j].date < rows[k].date || (rows[j].date == rows[k].date && rows[j].createdAt <= rows[k].createdAt))
  }

  lemma {:induction false} FindInForce(rows: seq<Price>) returns (k: nat)
    requires PickCurrent(rows).Some?
    ensures IsInForce(rows, k) && rows[k] == PickCurrent(rows).value
  {
    var n := |rows| - 1;
    PickIsNewest(rows[..n]);
    k := n;
    if PickCurrent(rows[..n]).Some? {
      var before := FindInForce(rows[..n]);
      if !Live(rows[n]) || !Newer(rows[n], rows[before]) {
        k := before;
      }
    } else {
      assert forall j :: 0 <= j < n ==> rows[j] in rows[..n];
    }
  }

  /** A row is the price in force exactly when it is the first of the newest, by day and then by capture. */
  lemma InForceExactlyWhen(rows: seq<Price>, p: Price)
    ensures PickCurrent(rows) == Some(p) <==> exists k: nat :: IsInForce(rows, k) && rows[k] == p
  {
    PickIsNewest(rows);
    if PickCurrent(rows).Some? {
      var k := FindInForce(rows);
      forall j: nat | IsInForce(rows, j)
        ensures j == k
      {
      }
    }
  }

  /** The price in force is a live row and no live row is more recent; there is one unless all are void. */
  lemma {:induction false} PickIsNewest(rows: seq<Price>)
    ensures PickCurrent(rows).None? <==> forall p :: p in rows ==> !Live(p)
    ensures PickCurrent(rows).Some? ==>
      && PickCurrent(rows).value in rows && Live(PickCurrent(rows).value)
      && forall p :: p in rows && Live(p) ==> !Newer(p, PickCurrent(rows).value)
  {
    if rows != [] {
      var n := |rows| - 1;
      PickIsNewest(rows[..n]);
      assert rows == rows[..n] + [rows[n]];
    }
  }

  /** No two live rows share date and time of capture. */
  ghost predicate DistinctStamps(rows: seq<Price>) {
    forall p, q :: p in rows && q in rows && Live(p) && Live(q) && p != q ==> Newer(p, q) || Newer(q, p)
  }

  /** With distinct stamps the price in force depends on which rows there are, not on their order. */
  lemma PickIgnoresOrder(xs: seq<Price>, ys: seq<Price>)
    requires DistinctStamps(xs) && forall p :: p in xs <==> p in ys
    ensures PickCurrent(xs) == PickCurrent(ys)
  {
    PickIsNewest(xs);
    PickIsNewest(ys);
  }

  // ---------------------------------------------------------------- grouping by material

  function Of(rows: seq<Price>, material: nat): seq<Price> {
    if rows == [] then []
    else
      var before := Of(rows[..|rows| - 1], material);
      if rows[|rows| - 1].material == material then before + [rows[|rows| - 1]] else before
  }

  lemma {:induction false} OfMembers(rows: seq<Price>, material: nat)
    ensures forall p :: p in Of(rows, material) <==> p in rows && p.material == material
  {
    if rows != [] {
      var n := |rows| - 1;
      OfMembers(rows[..n], material);
      assert rows == rows[..n] + [rows[n]];
    }
  }

  /** The loop that fills one bucket per material. */
  method Buckets(rows: seq<Price>) returns (byMaterial: map<nat, seq<Price>>)
    ensures forall m :: m in byMaterial <==> Of(rows, m) != []
    ensures forall m :: m in byMaterial ==> byMaterial[m] == Of(rows, m)
  {
    byMaterial := map[];
    var i := 0;
    while i < |rows|
      invariant 0 <= i <= |rows|
      invariant forall m :: m in byMaterial <==> Of(rows[..i], m) != []
      invariant forall m :: m in byMaterial ==> byMaterial[m] == Of(rows[..i], m)
    {
      var p := rows[i];
      assert rows[..i + 1][..i] == rows[..i];
      if p.material in byMaterial {
        byMaterial := byMaterial[p.material := byMaterial[p.material] + [p]];
      } else {
        byMaterial := byMaterial[p.material := [p]];
      }
      i := i + 1;
    }
    assert rows[..i] == rows;
  }

  /** No two live rows of one material share date and time of capture. */
  ghost predicate DistinctPerMaterial(rows: seq<Price>) {
    forall m :: DistinctStamps(Of(rows, m))
  }

  // ---------------------------------------------------------------- the capped read

  const SUMMARY_PRICE_CAP := 5000

  /** `ORDER BY date DESC, createdAt DESC`, void rows left out. */
  ghost predicate NewestFirst(rows: seq<Price>) {
    && (forall i :: 0 <= i < |rows| ==> Live(rows[i]))
    && (forall i, j :: 0 <= i < j < |rows| ==> !Newer(rows[j], rows[i]))
  }

  /** `take: SUMMARY_PRICE_CAP`. */
  function Capped(rows: seq<Price>, cap: nat): seq<Price> {
    if |rows| <= cap then rows else rows[..cap]
  }

  lemma {:induction false} OfAppend(xs: seq<Price>, ys: seq<Price>, material: nat)
    ensures Of(xs + ys, material) == Of(xs, material) + Of(ys, material)
  {
    if ys == [] {
      assert xs + ys == xs;
    } else {
      assert (xs + ys)[..|xs + ys| - 1] == xs + ys[..|ys| - 1];
      OfAppend(xs, ys[..|ys| - 1], material);
    }
  }

  lemma AddOldest(rows: seq<Price>, oldest: Price)
    requires NewestFirst(rows) && Live(oldest) && forall p :: p in rows ==> !Newer(oldest, p)
    ensures NewestFirst(rows + [oldest])
  {
  }

  lemma {:induction false} OfKeepsOrder(rows: seq<Price>, material: nat)
    requires NewestFirst(rows)
    ensures NewestFirst(Of(rows, material))
  {
    if rows != [] {
      var before := rows[..|rows| - 1];
      OfKeepsOrder(before, material);
      OfMembers(before, material);
      assert forall p :: p in before ==> !Newer(rows[|rows| - 1], p);
      AddOldest(Of(before, material), rows[|rows| - 1]);
    }
  }

  /** On rows already sorted the price in force is the first. */
  lemma {:induction false} PickOfSorted(rows: seq<Price>)
    requires NewestFirst(rows) && rows != []
    ensures PickCurrent(rows) == Some(rows[0])
  {
    var n := |rows| - 1;
    if n > 0 {
      PickOfSorted(rows[..n]);
    } else {
      assert rows[..n] == [];
    }
  }

  /** What the cap keeps of a material is the newest part of its history. */
  lemma CappedKeepsTheNewest(rows: seq<Price>, cap: nat, material: nat)
    ensures Of(Capped(rows, cap), material) <= Of(rows, material)
  {
    if |rows| > cap {
      OfAppend(rows[..cap], rows[cap..], material);
      assert rows == rows[..cap] + rows[cap..];
    }
  }

  /** The row before the one in force, which the summary compares it with. */
  function Previous(sorted: seq<Price>): Option<Price> {
    if |sorted| > 1 then Some(sorted[1]) else None
  }

  /** It is the price that would be in force without the one that is. */
  lemma PreviousIsNextInForce(sorted: seq<Price>)
    requires NewestFirst(sorted)
    ensures Previous(sorted) == if sorted == [] then None else PickCurrent(sorted[1..])
  {
    if |sorted| > 1 {
      assert NewestFirst(sorted[1..]);
      PickOfSorted(sorted[1..]);
    }
  }

  /**
   * From the capped read the price in force of a material is right exactly when one of its rows was kept or it has
   * none, the one before it when two were kept or it has at most one, and the number of prices when all were kept.
   */
  lemma CappedSummaryIsRight(rows: seq<Price>, cap: nat, material: nat)
    requires NewestFirst(rows)
    ensures var kept, all := Of(Capped(rows, cap), material), Of(rows, material);
      && (PickCurrent(kept) == PickCurrent(all) <==> kept != [] || all == [])
      && (Previous(kept) == Previous(all) <==> |kept| > 1 || |all| <= 1)
      && (|kept| == |all| <==> kept == all)
  {
    var kept, all := Of(Capped(rows, cap), material), Of(rows, material);
    CappedKeepsTheNewest(rows, cap, material);
    OfKeepsOrder(rows, material);
    if kept != [] {
      assert NewestFirst(kept);
      PickOfSorted(kept);
    }
    if all != [] {
      PickOfSorted(all);
    }
  }

  /** The same against the full history in whatever order it is read, given distinct stamps. */
  lemma CappedSummaryAgreesWithHistory(rows: seq<Price>, cap: nat, material: nat, history: seq<Price>)
    requires NewestFirst(rows) && DistinctStamps(history)
    requires forall p :: p in history && Live(p) <==> p in rows && p.material == material
    requires Of(Capped(rows, cap), material) != []
    ensures PickCurrent(Of(Capped(rows, cap), material)) == PickCurrent(history)
    ensures PickCurrent(history).Some?
  {
    var all := Of(rows, material);
    CappedSummaryIsRight(rows, cap, material);
    CappedKeepsTheNewest(rows, cap, material);
    OfMembers(rows, material);
    PickIsNewest(all);
    PickIsNewest(history);
    assert all[0] in all;
  }

  ghost predicate Hidden(rows: seq<Price>, material: nat) {
    && NewestFirst(rows) && |rows| == 5001
    && PickCurrent(Of(Capped(rows, SUMMARY_PRICE_CAP), material)).None? && PickCurrent(Of(rows, material)).Some?
  }

  /** A material whose rows were all cut off is shown without a price although it has one. */
  lemma CapCanHideAMaterial()
    ensures exists rows, material :: Hidden(rows, material)
  {
    var rows := seq(SUMMARY_PRICE_CAP + 1, i requires 0 <= i < SUMMARY_PRICE_CAP + 1 =>
      Price(i, if i < SUMMARY_PRICE_CAP then 1 else 2, None, 0.0, false, 0.0, 10000 - i, 0, None, None));
    var kept := Capped(rows, SUMMARY_PRICE_CAP);
    OfMembers(kept, 2);
    OfMembers(rows, 2);
    PickIsNewest(Of(kept, 2));
    PickIsNewest(Of(rows, 2));
    assert rows[SUMMARY_PRICE_CAP] in Of(rows, 2);
    assert Hidden(rows, 2);
  }
}
