/**
 * What each operation writes in the ledger of prices (stp-api/src/costs/material-prices.service.ts), column by column:
 * a price typed by hand, one that is voided, and what a sync leaves of the prices of an expense.
 */
module PriceEffects {
  import opened Wrappers
  import opened Rounding
  import opened PriceSelection
  import opened MaterialPrices

  // ---------------------------------------------------------------- typed by hand

  /** The price is taken, or the first of these checks that fails is the answer. */
  lemma WhyAPriceIsRefused(s: Store, p: NewPrice)
    ensures var error, t := CreateError(s, p), p.terms;
      var knownMaterial := p.material in s.materials;
      var knownSupplier := p.supplier.None? || p.supplier.value in s.suppliers;
      var rated := t.inDop || (t.exchangeRate.Some? && t.exchangeRate.value != 0.0);
      && (error == Some(MaterialNotFound) <==> !knownMaterial)
      && (error == Some(SupplierNotFound) <==> knownMaterial && !knownSupplier)
      && (error == Some(MissingExchangeRate) <==> knownMaterial && knownSupplier && !rated)
      && (error == None <==>
            && knownMaterial && knownSupplier && p.price >= 0.0 && 0.0 <= t.discountPct < 100.0
            && (t.inDop || (t.exchangeRate.Some? && t.exchangeRate.value > 0.0))
            && (t.itbisIncluded ==> t.itbisRate >= 0.0))
      && (error.Some? ==> Created(s, p) == s)
  {
    NetPriceInFull(p.price, p.terms);
  }

  /** A price that is taken is one more row, with what was asked for, the day it was asked for or today, and live. */
  lemma CreatedInFull(s: Store, p: NewPrice)
    requires CreateError(s, p).None?
    ensures var t := Created(s, p);
      && |t.rows| == |s.rows| + 1 && t.rows[..|s.rows|] == s.rows && t == s.(rows := t.rows)
      && var row := t.rows[|s.rows|];
         && row.id == |s.rows| && row.material == p.material && row.supplier == p.supplier
         && row.price == Round4(p.price) && row.itbisIncluded == p.terms.itbisIncluded
         && Some(row.net) == NetUnitPrice(p.price, p.terms)
         && row.date == (if p.date.Some? then p.date.value else s.now) && row.createdAt == s.now
         && row.expense == None && row.voided == None
  {
  }

  /** A live price that is voided says when, by whom and why; nothing else changes, and no other price can be. */
  lemma VoidedInFull(s: Store, k: nat, user: nat, reason: string)
    ensures var t := Voided(s, k, user, reason);
      && t == s.(rows := t.rows) && |t.rows| == |s.rows|
      && forall i :: 0 <= i < |s.rows| ==>
           if i == k && s.rows[k].voided.None?
           then t.rows[i] == s.rows[i].(voided := Some(VoidMark(s.now, Some(user), Given(reason))))
           else t.rows[i] == s.rows[i]
    ensures VoidError(s, k) ==
      if k >= |s.rows| then Some(PriceNotFound) else if s.rows[k].voided.Some? then Some(AlreadyVoided) else None
  {
  }

  // ---------------------------------------------------------------- derived from an expense

  /** The expense tells a material and what one unit of it cost. */
  predicate Tells(e: ExpenseInput) {
    && e.material.Some? && e.quantity.Some? && e.quantity.value > 0.0
    && e.unitPrice.Some? && e.unitPrice.value >= 0.0
  }

  /** The row is of that material, that supplier and that day, with tax or without as the expense says. */
  predicate Agrees(row: Price, e: ExpenseInput) {
    && Some(row.material) == e.material && row.supplier == e.supplier && row.date == e.date
    && row.itbisIncluded == e.itbisIncluded
  }

  predicate LiveFor(row: Price, expense: nat) {
    row.expense == Some(expense) && row.voided.None?
  }

  /** A live row says what the expense says, to a millionth. */
  predicate Says(row: Price, e: ExpenseInput) {
    && LiveFor(row, e.expense) && Agrees(row, e)
    && e.unitPrice.Some? && -0.000001 <= row.price - e.unitPrice.value <= 0.000001
  }

  ghost predicate AnySays(rows: Rows, e: ExpenseInput) {
    exists i :: 0 <= i < |rows| && Says(rows[i], e)
  }

  lemma LiveIsTheOnlyOne(rows: Rows, expense: nat, i: nat)
    requires Valid(rows) && i < |rows| && LiveFor(rows[i], expense)
    ensures LiveOf(rows, expense) == Some(i)
  {
    LiveOfFinds(rows, expense);
    var k := LiveOf(rows, expense).value;
    assert i < k ==> Exclusive(rows[i], rows[k]);
    assert k < i ==> Exclusive(rows[k], rows[i]);
  }

  lemma SaysIsAlreadySaid(rows: Rows, e: ExpenseInput)
    requires Valid(rows) && Tells(e)
    ensures AnySays(rows, e) <==> AlreadySaid(rows, e)
  {
    LiveOfFinds(rows, e.expense);
    if AnySays(rows, e) {
      var i :| 0 <= i < |rows| && Says(rows[i], e);
      LiveIsTheOnlyOne(rows, e.expense, i);
    } else if AlreadySaid(rows, e) {
      assert Says(rows[LiveOf(rows, e.expense).value], e);
    }
  }

  /**
   * A sync adds a row exactly when the expense tells a price that no live row says. The rows there were stay, but for
   * the mark on the live one of the expense, put exactly when it does not say what the expense tells.
   */
  lemma RowsAfterSync(s: Store, e: ExpenseInput)
    requires Valid(s.rows)
    ensures var t := Synced(s, e);
      && t == s.(rows := t.rows)
      && |t.rows| == |s.rows| + (if Tells(e) && !AnySays(s.rows, e) then 1 else 0)
      && forall i :: 0 <= i < |s.rows| ==>
           if LiveFor(s.rows[i], e.expense) && !(Tells(e) && Says(s.rows[i], e))
           then t.rows[i] ==
             s.rows[i].(voided := Some(VoidMark(s.now, e.user, if Tells(e) then Replaced else NoLongerPriced)))
           else t.rows[i] == s.rows[i]
  {
    LiveOfFinds(s.rows, e.expense);
    if Tells(e) {
      SaysIsAlreadySaid(s.rows, e);
    }
    var existing := LiveOf(s.rows, e.expense);
    if existing.Some? {
      var mark := VoidMark(s.now, e.user, if Tells(e) then Replaced else NoLongerPriced);
      MarkedHasNone(s.rows, e.expense, mark);
    }
    forall i | 0 <= i < |s.rows| && LiveFor(s.rows[i], e.expense)
      ensures existing == Some(i)
    {
      LiveIsTheOnlyOne(s.rows, e.expense, i);
    }
  }

  /** The row that a sync adds: what the expense tells, to four decimals, comparable without the 18% of tax. */
  lemma AddedBySync(s: Store, e: ExpenseInput)
    requires Valid(s.rows) && Tells(e) && !AnySays(s.rows, e)
    ensures var rows := Synced(s, e).rows;
      && |rows| == |s.rows| + 1
      && var row := rows[|s.rows|];
         && row.id == |s.rows| && LiveFor(row, e.expense) && Agrees(row, e) && row.createdAt == s.now
         && row.price == Round4(e.unitPrice.value)
         && var factor := if e.itbisIncluded then 1.18 else 1.0;
            -0.00005 * factor <= row.net * factor - e.unitPrice.value <= 0.00005 * factor
  {
    RowsAfterSync(s, e);
    SaysIsAlreadySaid(s.rows, e);
    DerivedNetIsWithoutTax(|s.rows|, e, s.now);
    LiveOfFinds(s.rows, e.expense);
    var existing := LiveOf(s.rows, e.expense);
    if existing.Some? {
      MarkedHasNone(s.rows, e.expense, VoidMark(s.now, e.user, Replaced));
    }
  }

  /**
   * After a sync, every live price of the expense is of the material, supplier, day and tax it tells, at its unit
   * price to half a ten-thousandth; there is one exactly when it tells a price.
   */
  lemma AfterASync(s: Store, e: ExpenseInput)
    requires Valid(s.rows)
    ensures var rows := Synced(s, e).rows;
      && (forall i :: 0 <= i < |rows| && LiveFor(rows[i], e.expense) ==>
            Tells(e) && Agrees(rows[i], e) && -0.00005 <= rows[i].price - e.unitPrice.value <= 0.00005)
      && (Tells(e) <==> exists i :: 0 <= i < |rows| && LiveFor(rows[i], e.expense))
  {
    RowsAfterSync(s, e);
    var rows := Synced(s, e).rows;
    if Tells(e) && !AnySays(s.rows, e) {
      AddedBySync(s, e);
      RoundingError(e.unitPrice.value);
      assert LiveFor(rows[|s.rows|], e.expense);
    } else if Tells(e) {
      var i :| 0 <= i < |s.rows| && Says(s.rows[i], e);
      assert LiveFor(rows[i], e.expense);
    }
  }

  /** Deleting an expense marks its live prices, and touches no other. */
  lemma AfterADeletion(s: Store, expense: nat, user: Option<nat>)
    ensures var t := ExpenseDeleted(s, expense, user);
      && t == s.(rows := t.rows) && |t.rows| == |s.rows|
      && forall i :: 0 <= i < |s.rows| ==>
           if LiveFor(s.rows[i], expense)
           then t.rows[i] == s.rows[i].(voided := Some(VoidMark(s.now, user, ExpenseGone)))
           else t.rows[i] == s.rows[i]
  {
  }
}
