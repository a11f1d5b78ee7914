/**
 * The rest of what a page of materials is told about its prices (stp-api/src/costs/price-selection.ts): the extremes
 * and the average of the summary, and the price in force of every supplier, cheapest first.
 */
module SupplierComparison {
  import opened Wrappers
  import opened Rounding
  import opened PriceSelection

  // ---------------------------------------------------------------- the summary from a capped read

  predicate IsLowest(rows: seq<Price>, net: real) {
    (exists p :: p in rows && p.net == net) && forall p :: p in rows ==> net <= p.net
  }

  predicate IsHighest(rows: seq<Price>, net: real) {
    (exists p :: p in rows && p.net == net) && forall p :: p in rows ==> p.net <= net
  }

  /** `Math.min(...values)`, before it is rounded to cents. */
  function Lowest(rows: seq<Price>): (net: real)
    requires rows != []
    ensures IsLowest(rows, net)
  {
    var last := rows[|rows| - 1].net;
    if |rows| == 1 then last
    else
      var before := Lowest(rows[..|rows| - 1]);
      assert rows == rows[..|rows| - 1] + [rows[|rows| - 1]];
      if last < before then last else before
  }

  function Highest(rows: seq<Price>): (net: real)
    requires rows != []
    ensures IsHighest(rows, net)
  {
    var last := rows[|rows| - 1].net;
    if |rows| == 1 then last
    else
      var before := Highest(rows[..|rows| - 1]);
      assert rows == rows[..|rows| - 1] + [rows[|rows| - 1]];
      if last > before then last else before
  }

  function TotalNet(rows: seq<Price>): real {
    if rows == [] then 0.0 else TotalNet(rows[..|rows| - 1]) + rows[|rows| - 1].net
  }

  function Average(rows: seq<Price>): real
    requires rows != []
  {
    TotalNet(rows) / |rows| as real
  }

  lemma {:induction false} TotalOfBoth(xs: seq<Price>, ys: seq<Price>)
    ensures TotalNet(xs + ys) == TotalNet(xs) + TotalNet(ys)
  {
    if ys == [] {
      assert xs + ys == xs;
    } else {
      assert (xs + ys)[..|xs + ys| - 1] == xs + ys[..|ys| - 1];
      TotalOfBoth(xs, ys[..|ys| - 1]);
    }
  }

  /** The total of one row is its comparable price, and an average lies between the extremes. */
  lemma AverageIsBetween(rows: seq<Price>)
    requires rows != []
    ensures Lowest(rows) <= Average(rows) <= Highest(rows)
    ensures |rows| == 1 ==> Average(rows) == rows[0].net
  {
    AverageTimes(rows);
    assert IsLowest(rows, Lowest(rows)) && IsHighest(rows, Highest(rows));
    AverageWithin(rows, Lowest(rows), Highest(rows));
  }

  lemma AverageWithin(rows: seq<Price>, low: real, high: real)
    requires rows != [] && forall p :: p in rows ==> low <= p.net <= high
    ensures low <= Average(rows) <= high
  {
    TotalIsBetween(rows, low, high);
    AverageTimes(rows);
    QuotientIsBetween(low, Average(rows), high, |rows| as real);
  }

  lemma AverageTimes(rows: seq<Price>)
    requires rows != []
    ensures Average(rows) * |rows| as real == TotalNet(rows)
    ensures |rows| == 1 ==> Average(rows) == rows[0].net
  {
    if |rows| == 1 {
      assert rows[..0] == [];
    }
  }

  lemma {:induction false} TotalIsBetween(rows: seq<Price>, low: real, high: real)
    requires forall p :: p in rows ==> low <= p.net <= high
    ensures low * |rows| as real <= TotalNet(rows) <= high * |rows| as real
  {
    if rows != [] {
      var n := |rows| - 1;
      TotalIsBetween(rows[..n], low, high);
      assert |rows| as real == n as real + 1.0;
      assert low * |rows| as real == low * n as real + low && high * |rows| as real == high * n as real + high;
      assert rows[n] in rows;
    }
  }

  lemma QuotientIsBetween(low: real, q: real, high: real, n: real)
    requires n > 0.0 && low * n <= q * n <= high * n
    ensures low <= q <= high
  {
    if q < low {
      TimesKeepsOrder(q, low, n);
    } else if q > high {
      TimesKeepsOrder(high, q, n);
    }
  }

  lemma TimesKeepsOrder(x: real, y: real, n: real)
    requires x < y && n > 0.0
    ensures x * n < y * n
  {
    assert (y - x) * n > 0.0;
  }

  /** Two averages joined are the first one exactly when they are the same. */
  lemma JoinedAverage(a: real, m: real, b: real, n: real)
    requires m > 0.0 && n > 0.0
    ensures (a + b) / (m + n) == a / m <==> b / n == a / m
  {
    var x, y, z := a / m, b / n, (a + b) / (m + n);
    assert x * m == a && y * n == b && z * (m + n) == a + b;
    assert z * (m + n) == z * m + z * n;
    if y == x {
      assert z * (m + n) == x * m + x * n == x * (m + n);
      SameQuotient(z, x, m + n);
    }
    if z == x {
      assert x * n == b == y * n;
      SameQuotient(x, y, n);
    }
  }

  lemma SameQuotient(x: real, y: real, d: real)
    requires d > 0.0 && x * d == y * d
    ensures x == y
  {
    assert (x - y) * d == 0.0;
  }

  /**
   * Of a material some of whose rows were kept by the cap, the lowest shown is never below the real one nor the highest
   * above it. They are right exactly when none of the rows cut off goes beyond them, and the average exactly when
   * nothing was cut off or what was has that same average.
   */
  lemma CappedExtremes(rows: seq<Price>, cap: nat, material: nat)
    requires Of(Capped(rows, cap), material) != []
    ensures var kept, all := Of(Capped(rows, cap), material), Of(rows, material);
      && kept <= all
      && var cut := all[|kept|..];
      && Lowest(all) <= Lowest(kept) && Highest(kept) <= Highest(all)
      && (Lowest(kept) == Lowest(all) <==> forall p :: p in cut ==> Lowest(kept) <= p.net)
      && (Highest(kept) == Highest(all) <==> forall p :: p in cut ==> p.net <= Highest(kept))
      && (Average(kept) == Average(all) <==> cut == [] || Average(cut) == Average(kept))
  {
    CappedKeepsTheNewest(rows, cap, material);
    var kept, all := Of(Capped(rows, cap), material), Of(rows, material);
    KeptExtremes(kept, all[|kept|..]);
    assert all == kept + all[|kept|..];
  }

  lemma KeptExtremes(kept: seq<Price>, cut: seq<Price>)
    requires kept != []
    ensures var all := kept + cut;
      && Lowest(all) <= Lowest(kept) && Highest(kept) <= Highest(all)
      && (Lowest(kept) == Lowest(all) <==> forall p :: p in cut ==> Lowest(kept) <= p.net)
      && (Highest(kept) == Highest(all) <==> forall p :: p in cut ==> p.net <= Highest(kept))
      && (Average(kept) == Average(all) <==> cut == [] || Average(cut) == Average(kept))
  {
    var all := kept + cut;
    assert IsLowest(kept, Lowest(kept)) && IsLowest(all, Lowest(all));
    assert IsHighest(kept, Highest(kept)) && IsHighest(all, Highest(all));
    assert forall p :: p in kept || p in cut ==> p in all;
    KeptAverage(kept, cut);
  }

  lemma KeptAverage(kept: seq<Price>, cut: seq<Price>)
    requires kept != []
    ensures Average(kept) == Average(kept + cut) <==> cut == [] || Average(cut) == Average(kept)
  {
    TotalOfBoth(kept, cut);
    if cut == [] {
      assert kept + cut == kept;
    } else {
      JoinedAverage(TotalNet(kept), |kept| as real, TotalNet(cut), |cut| as real);
    }
  }

  // ---------------------------------------------------------------- the price in force of every supplier

  type Supplier = Option<nat>

  /** The suppliers of the live rows, each once, in order of first appearance; `None` stands for no supplier. */
  function Suppliers(rows: seq<Price>): seq<Supplier> {
    if rows == [] then []
    else
      var before := Suppliers(rows[..|rows| - 1]);
      var last := rows[|rows| - 1];
      if Live(last) && last.supplier !in before then before + [last.supplier] else before
  }

  /** The live rows of one supplier. */
  function LiveFrom(rows: seq<Price>, s: Supplier): seq<Price> {
    if rows == [] then []
    else
      var before := LiveFrom(rows[..|rows| - 1], s);
      var last := rows[|rows| - 1];
      if Live(last) && last.supplier == s then before + [last] else before
  }

  lemma {:induction false} LiveFromMembers(rows: seq<Price>, s: Supplier)
    ensures forall p :: p in LiveFrom(rows, s) <==> p in rows && Live(p) && p.supplier == s
  {
    if rows != [] {
      var n := |rows| - 1;
      LiveFromMembers(rows[..n], s);
      assert rows == rows[..n] + [rows[n]];
    }
  }

  lemma {:induction false} SuppliersAreThose(rows: seq<Price>)
    ensures forall s :: s in Suppliers(rows) <==> LiveFrom(rows, s) != []
    ensures forall i, j :: 0 <= i < j < |Suppliers(rows)| ==> Suppliers(rows)[i] != Suppliers(rows)[j]
  {
    if rows != [] {
      SuppliersAreThose(rows[..|rows| - 1]);
    }
  }

  /** The sort by net price is stable: `p` goes after everything that costs as little. */
  function Insert(ps: seq<Price>, p: Price): seq<Price> {
    if ps != [] && ps[|ps| - 1].net > p.net then Insert(ps[..|ps| - 1], p) + [ps[|ps| - 1]] else ps + [p]
  }

  function CheapestFirst(ps: seq<Price>): seq<Price> {
    if ps == [] then [] else Insert(CheapestFirst(ps[..|ps| - 1]), ps[|ps| - 1])
  }

  ghost predicate Ascending(ps: seq<Price>) {
    forall i, j :: 0 <= i < j < |ps| ==> ps[i].net <= ps[j].net
  }

  lemma {:induction false} InsertKeepsAll(ps: seq<Price>, p: Price)
    ensures multiset(Insert(ps, p)) == multiset(ps) + multiset{p}
  {
    if ps != [] && ps[|ps| - 1].net > p.net {
      InsertKeepsAll(ps[..|ps| - 1], p);
      assert ps == ps[..|ps| - 1] + [ps[|ps| - 1]];
    }
  }

  ghost predicate AtMost(ps: seq<Price>, bound: real) {
    forall i :: 0 <= i < |ps| ==> ps[i].net <= bound
  }

  lemma {:induction false} InsertKeepsBound(ps: seq<Price>, p: Price, bound: real)
    requires AtMost(ps, bound) && p.net <= bound
    ensures AtMost(Insert(ps, p), bound)
  {
    if ps != [] && ps[|ps| - 1].net > p.net {
      InsertKeepsBound(ps[..|ps| - 1], p, bound);
    }
  }

  lemma {:induction false} InsertKeepsOrder(ps: seq<Price>, p: Price)
    requires Ascending(ps)
    ensures Ascending(Insert(ps, p))
  {
    if ps != [] && ps[|ps| - 1].net > p.net {
      var n := |ps| - 1;
      InsertKeepsOrder(ps[..n], p);
      InsertKeepsBound(ps[..n], p, ps[n].net);
    }
  }

  /** The rows at one comparable price, in order. */
  function AtNet(ps: seq<Price>, net: real): seq<Price> {
    if ps == [] then []
    else AtNet(ps[..|ps| - 1], net) + if ps[|ps| - 1].net == net then [ps[|ps| - 1]] else []
  }

  lemma {:induction false} InsertIsStable(ps: seq<Price>, p: Price, net: real)
    requires Ascending(ps)
    ensures AtNet(Insert(ps, p), net) == AtNet(ps, net) + if p.net == net then [p] else []
  {
    if ps != [] && ps[|ps| - 1].net > p.net {
      var n := |ps| - 1;
      InsertIsStable(ps[..n], p, net);
      var before := Insert(ps[..n], p);
      assert (before + [ps[n]])[..|before|] == before;
      if p.net == net {
        assert ps[n].net != net;
      }
    } else {
      assert (ps + [p])[..|ps|] == ps;
    }
  }

  /** Of those that cost the same, the first met stays first. */
  lemma {:induction false} SortIsStable(ps: seq<Price>, net: real)
    ensures AtNet(CheapestFirst(ps), net) == AtNet(ps, net)
  {
    if ps != [] {
      var n := |ps| - 1;
      SortIsStable(ps[..n], net);
      CheapestFirstSorts(ps[..n]);
      InsertIsStable(CheapestFirst(ps[..n]), ps[n], net);
    }
  }

  lemma {:induction false} CheapestFirstSorts(ps: seq<Price>)
    ensures Ascending(CheapestFirst(ps)) && multiset(CheapestFirst(ps)) == multiset(ps)
  {
    if ps != [] {
      var n := |ps| - 1;
      CheapestFirstSorts(ps[..n]);
      InsertKeepsOrder(CheapestFirst(ps[..n]), ps[n]);
      InsertKeepsAll(CheapestFirst(ps[..n]), ps[n]);
      assert ps == ps[..n] + [ps[n]];
    }
  }

  /** The price in force of each of these suppliers. */
  function Picks(rows: seq<Price>, ss: seq<Supplier>): seq<Price> {
    if ss == [] then []
    else
      var before := Picks(rows, ss[..|ss| - 1]);
      var pick := PickCurrent(LiveFrom(rows, ss[|ss| - 1]));
      if pick.Some? then before + [pick.value] else before
  }

  function CurrentBySupplier(rows: seq<Price>): seq<Price> {
    CheapestFirst(Picks(rows, Suppliers(rows)))
  }

  /** `currentPriceBySupplier`: fills the buckets, takes the price in force of each and sorts them. */
  method ComputeBySupplier(rows: seq<Price>) returns (r: seq<Price>)
    ensures r == CurrentBySupplier(rows)
  {
    var order, buckets := FillBuckets(rows);
    var picks := [];
    for i := 0 to |order|
      invariant picks == Picks(rows, order[..i])
    {
      assert order[..i + 1][..i] == order[..i] && order[i] in order;
      var pick := PickCurrent(buckets[order[i]]);
      if pick.Some? {
        picks := picks + [pick.value];
      }
    }
    assert order[..|order|] == order;
    r := CheapestFirst(picks);
  }

  method FillBuckets(rows: seq<Price>) returns (order: seq<Supplier>, buckets: map<Supplier, seq<Price>>)
    ensures order == Suppliers(rows) && forall s :: s in order ==> s in buckets && buckets[s] == LiveFrom(rows, s)
  {
    order, buckets := [], map[];
    for i := 0 to |rows|
      invariant order == Suppliers(rows[..i])
      invariant forall s :: s in buckets <==> s in order
      invariant forall s :: s in buckets ==> buckets[s] == LiveFrom(rows[..i], s)
      invariant forall s :: s !in buckets ==> LiveFrom(rows[..i], s) == []
    {
      var p := rows[i];
      assert rows[..i + 1][..i] == rows[..i];
      if p.voided.None? {
        if p.supplier in buckets {
          buckets := buckets[p.supplier := buckets[p.supplier] + [p]];
        } else {
          buckets := buckets[p.supplier := [p]];
          order := order + [p.supplier];
        }
      }
    }
    assert rows[..|rows|] == rows;
  }

  predicate PickedFor(rows: seq<Price>, s: Supplier, p: Price) {
    p.supplier == s && PickCurrent(LiveFrom(rows, s)) == Some(p)
  }

  lemma {:induction false} PicksAreInForce(rows: seq<Price>, ss: seq<Supplier>)
    requires forall s :: s in ss ==> LiveFrom(rows, s) != []
    ensures |Picks(rows, ss)| == |ss|
    ensures forall i :: 0 <= i < |ss| ==> PickedFor(rows, ss[i], Picks(rows, ss)[i])
  {
    if ss != [] {
      var n := |ss| - 1;
      PicksAreInForce(rows, ss[..n]);
      assert ss[n] in ss;
      PickIsNewest(LiveFrom(rows, ss[n]));
      LiveFromMembers(rows, ss[n]);
      assert LiveFrom(rows, ss[n])[0] in LiveFrom(rows, ss[n]);
    }
  }

  /** Every supplier with a live price is listed once, with its price in force, and the cheapest come first. */
  lemma BySupplierIsRight(rows: seq<Price>)
    ensures var r := CurrentBySupplier(rows);
      && Ascending(r)
      && (forall p :: p in r <==> Live(p) && PickCurrent(LiveFrom(rows, p.supplier)) == Some(p))
      && |r| == |Suppliers(rows)|
  {
    var ss := Suppliers(rows);
    var picks := Picks(rows, ss);
    SuppliersAreThose(rows);
    PicksAreInForce(rows, ss);
    CheapestFirstSorts(picks);
    var r := CurrentBySupplier(rows);
    assert |multiset(r)| == |r| && |multiset(picks)| == |picks|;
    forall p
      ensures p in r <==> Live(p) && PickCurrent(LiveFrom(rows, p.supplier)) == Some(p)
    {
      assert p in r <==> p in multiset(r);
      assert p in picks <==> p in multiset(picks);
      PickOfSupplier(rows, ss, p);
    }
  }

  lemma PickOfSupplier(rows: seq<Price>, ss: seq<Supplier>, p: Price)
    requires ss == Suppliers(rows) && |Picks(rows, ss)| == |ss|
    requires forall s :: s in ss <==> LiveFrom(rows, s) != []
    requires forall i :: 0 <= i < |ss| ==> PickedFor(rows, ss[i], Picks(rows, ss)[i])
    ensures p in Picks(rows, ss) <==> Live(p) && PickCurrent(LiveFrom(rows, p.supplier)) == Some(p)
  {
    PickIsNewest(LiveFrom(rows, p.supplier));
    LiveFromMembers(rows, p.supplier);
    if p in Picks(rows, ss) {
      var i :| 0 <= i < |ss| && Picks(rows, ss)[i] == p;
      assert PickedFor(rows, ss[i], p);
    }
    if PickCurrent(LiveFrom(rows, p.supplier)) == Some(p) {
      assert p.supplier in ss;
      var i :| 0 <= i < |ss| && ss[i] == p.supplier;
      assert PickedFor(rows, ss[i], Picks(rows, ss)[i]);
    }
  }
}
