/** What `applySplits` does to the ledger, on every state and for every list of lines. */
module LedgerDivision {
  import opened Wrappers
  import opened InvoiceSplit
  import opened InvoiceLedger

  // ---------------------------------------------------------------- what the invoice holds

  ghost predicate DistinctHoldings(held: seq<Holding>) {
    forall a, b :: 0 <= a < b < |held| ==> held[a].expense != held[b].expense
  }

  ghost predicate DistinctExpenses(ls: seq<Line>) {
    forall k, l :: 0 <= k < l < |ls| && ls[k].expense.Some? ==> ls[k].expense != ls[l].expense
  }

  lemma {:induction false} LineHoldingsMirrorLines(ls: seq<Line>)
    requires DistinctExpenses(ls)
    ensures DistinctHoldings(LineHoldings(ls))
    ensures forall h :: h in LineHoldings(ls) ==>
      exists k :: 0 <= k < |ls| && ls[k].expense == Some(h.expense) && ls[k].destination == h.destination
    ensures forall k :: 0 <= k < |ls| && ls[k].expense.Some? ==>
      Holding(ls[k].destination, ls[k].expense.value) in LineHoldings(ls)
  {
    if ls != [] {
      var front := ls[..|ls| - 1];
      LineHoldingsMirrorLines(front);
      forall h | h in LineHoldings(ls)
        ensures exists k :: 0 <= k < |ls| && ls[k].expense == Some(h.expense) && ls[k].destination == h.destination
      {
        if h in LineHoldings(front) {
          var k :| 0 <= k < |front| && front[k].expense == Some(h.expense) && front[k].destination == h.destination;
          assert ls[k].expense == Some(h.expense);
        } else {
          assert ls[|ls| - 1].expense == Some(h.expense);
        }
      }
      forall k | 0 <= k < |ls| && ls[k].expense.Some?
        ensures Holding(ls[k].destination, ls[k].expense.value) in LineHoldings(ls)
      {
        if k < |front| {
          assert front[k] == ls[k];
        }
      }
    }
  }

  /** In sound tables an invoice holds each of its claims once, and nothing else. */
  lemma HoldingsAreTheClaims(t: Tables, id: Id)
    requires Sound(t) && id in t.invoices
    ensures DistinctHoldings(Held(t, id))
    ensures forall e :: e in HeldIds(Held(t, id)) ==> e in t.expenses && exists k :: ClaimAt(t, id, k) == Some(e)
    ensures forall k :: ClaimAt(t, id, k).Some? ==> ClaimAt(t, id, k).value in HeldIds(Held(t, id))
  {
    var ls := t.lines[id];
    forall k, l | 0 <= k < l < |ls| && ls[k].expense.Some?
      ensures ls[k].expense != ls[l].expense
    {
      assert ClaimAt(t, id, k) == ls[k].expense && ClaimAt(t, id, l) == ls[l].expense;
    }
    LineHoldingsMirrorLines(ls);
    var held := Held(t, id);
    var single := t.invoices[id].expense;
    assert single == ClaimAt(t, id, -1);
    forall h | h in held
      ensures exists k ::
        ClaimAt(t, id, k) == Some(h.expense) && if h in LineHoldings(ls) then 0 <= k else k == -1
    {
      if h in LineHoldings(ls) {
        var k :| 0 <= k < |ls| && ls[k].expense == Some(h.expense) && ls[k].destination == h.destination;
        assert ClaimAt(t, id, k) == Some(h.expense);
      } else {
        assert ClaimAt(t, id, -1) == Some(h.expense);
      }
    }
    forall k | ClaimAt(t, id, k).Some?
      ensures ClaimAt(t, id, k).value in HeldIds(held)
    {
      if k == -1 {
        assert held[|held| - 1].expense == single.value;
      } else {
        assert Holding(ls[k].destination, ls[k].expense.value) in held;
      }
    }
  }

  lemma {:induction false} ReuseIsHeld(held: seq<Holding>, d: Destination)
    ensures ReuseOf(held, d).Some? ==> Holding(d, ReuseOf(held, d).value) in held
    ensures ReuseOf(held, d).None? <==> forall h :: h in held ==> h.destination != d
  {
    if held != [] {
      ReuseIsHeld(held[..|held| - 1], d);
      assert held == held[..|held| - 1] + [held[|held| - 1]];
    }
  }

  /** What is reused for a destination is the first that the invoice holds for it. */
  lemma {:induction false} ReuseIsTheFirst(held: seq<Holding>, d: Destination) returns (k: nat)
    requires ReuseOf(held, d).Some?
    ensures k < |held| && held[k] == Holding(d, ReuseOf(held, d).value)
    ensures forall j :: 0 <= j < k ==> held[j].destination != d
  {
    var n := |held| - 1;
    if ReuseOf(held[..n], d).Some? {
      k := ReuseIsTheFirst(held[..n], d);
      assert held[..n][k] == held[k];
    } else {
      k := n;
      ReuseIsHeld(held[..n], d);
      assert forall j :: 0 <= j < n ==> held[j] in held[..n];
    }
  }

  /** Different destinations never reuse the same expense. */
  lemma ReuseIsInjective(held: seq<Holding>, d: Destination, d': Destination)
    requires DistinctHoldings(held) && d != d' && ReuseOf(held, d).Some?
    ensures ReuseOf(held, d) != ReuseOf(held, d')
  {
    ReuseIsHeld(held, d);
    ReuseIsHeld(held, d');
  }

  // ---------------------------------------------------------------- the expense of each line

  ghost predicate DistinctIds(ids: seq<Id>) {
    forall k, l :: 0 <= k < l < |ids| ==> ids[k] != ids[l]
  }

  /** Every id is one the invoice held, or one of the new ids. */
  ghost predicate HeldOrNew(ids: seq<Id>, held: set<Id>, from: Id, to: Id) {
    forall k :: 0 <= k < |ids| ==> ids[k] in held || from <= ids[k] < to
  }

  lemma {:induction false} LineIdsAreDistinct(held: seq<Holding>, lines: seq<SplitLine>, next: Id)
    requires DistinctHoldings(held) && DistinctDestinations(lines)
    requires forall h :: h in held ==> h.expense < next
    ensures var ids := LineIds(held, lines, next);
      && HeldOrNew(ids, HeldIds(held), next, next + FreshCount(held, lines))
      && (forall k :: 0 <= k < |ids| ==> ReuseOf(held, lines[k].destination).Some? ==>
            ids[k] == ReuseOf(held, lines[k].destination).value)
      && (forall k :: 0 <= k < |ids| ==> ReuseOf(held, lines[k].destination).None? ==> next <= ids[k])
      && DistinctIds(ids)
  {
    if lines != [] {
      var n := |lines| - 1;
      var ids, last := LineIds(held, lines[..n], next), LineIds(held, lines, next)[n];
      LineIdsAreDistinct(held, lines[..n], next);
      ReuseIsHeld(held, lines[n].destination);
      assert LineIds(held, lines, next) == ids + [last];
      forall k | 0 <= k < n
        ensures ids[k] != last
      {
        LastIdDiffers(held, lines[k].destination, ids[k], lines[n].destination, last, next,
          next + FreshCount(held, lines[..n]));
      }
    }
  }

  /** An id reused or between `next` and `to`, and one reused or `to`, for different destinations. */
  lemma LastIdDiffers(held: seq<Holding>, d: Destination, e: Id, d': Destination, e': Id, next: Id, to: Id)
    requires DistinctHoldings(held) && d != d' && next <= to && forall h :: h in held ==> h.expense < next
    requires if ReuseOf(held, d).Some? then e == ReuseOf(held, d).value else next <= e && (e in HeldIds(held) || e < to)
    requires e' == if ReuseOf(held, d').Some? then ReuseOf(held, d').value else to
    ensures e != e'
  {
    ReuseIsHeld(held, d);
    ReuseIsHeld(held, d');
    if ReuseOf(held, d).Some? {
      ReuseIsInjective(held, d, d');
    }
  }

  lemma RechargedLine(expenses: map<Id, Expense>, drop: set<Id>, ids: seq<Id>, f: Fiscal, lines: seq<SplitLine>, k: nat)
    requires |ids| == |lines| && k < |ids|
    requires DistinctIds(ids)
    ensures ids[k] in Recharged(expenses, drop, ids, f, lines)
    ensures Recharged(expenses, drop, ids, f, lines)[ids[k]] == Charged(expenses, ids[k], f, lines[k], |lines| > 1)
  {
    assert IndexOf(ids, ids[k]) == k;
  }

  /** The ids of the new lines are distinct, and each was held by the invoice or is new. */
  lemma DividedIds(t: Tables, id: Id, lines: seq<SplitLine>)
    requires Sound(t) && id in t.invoices && DistinctDestinations(lines)
    ensures var held := Held(t, id);
      var ids := LineIds(held, lines, t.nextExpense);
      && DistinctIds(ids)
      && HeldOrNew(ids, HeldIds(held), t.nextExpense, t.nextExpense + FreshCount(held, lines))
      && (forall e :: e in HeldIds(held) ==> e in t.expenses && e < t.nextExpense)
  {
    HoldingsAreTheClaims(t, id);
    HeldIsOld(t, id);
    LineIdsAreDistinct(Held(t, id), lines, t.nextExpense);
  }

  /** The expense of line `k` after a division. */
  lemma DividedLine(t: Tables, id: Id, lines: seq<SplitLine>, k: nat)
    requires Sound(t) && id in t.invoices && k < |lines| && DistinctDestinations(lines)
    ensures var e := LineIds(Held(t, id), lines, t.nextExpense)[k];
      && e in Divided(t, id, lines).expenses
      && Divided(t, id, lines).expenses[e] == Charged(t.expenses, e, t.invoices[id].fiscal, lines[k], |lines| > 1)
  {
    DividedIds(t, id, lines);
    var held := Held(t, id);
    RechargedLine(t.expenses, HeldIds(held), LineIds(held, lines, t.nextExpense), t.invoices[id].fiscal, lines, k);
  }

  /** An expense the invoice does not hold is left as it was. */
  lemma DividedElsewhere(t: Tables, id: Id, lines: seq<SplitLine>, e: Id)
    requires Sound(t) && id in t.invoices && lines != [] && DistinctDestinations(lines)
    requires e in t.expenses && e !in HeldIds(Held(t, id))
    ensures e in Divided(t, id, lines).expenses && Divided(t, id, lines).expenses[e] == t.expenses[e]
  {
    DividedIds(t, id, lines);
  }

  /** The claims after a division: the lines claim their expenses in order, or the single line its one. */
  lemma DividedClaims(t: Tables, id: Id, lines: seq<SplitLine>, i: Id, k: int)
    requires Sound(t) && id in t.invoices && lines != []
    ensures var ids := LineIds(Held(t, id), lines, t.nextExpense);
      var t' := Divided(t, id, lines);
      && (i != id ==> ClaimAt(t', i, k) == ClaimAt(t, i, k))
      && (i == id && |lines| > 1 ==> ClaimAt(t', i, k) == if 0 <= k < |ids| then Some(ids[k]) else None)
      && (i == id && |lines| == 1 ==> ClaimAt(t', i, k) == if k == -1 then Some(ids[0]) else None)
  {
  }

  lemma DividedKeepsSound(t: Tables, id: Id, lines: seq<SplitLine>)
    requires Sound(t) && id in t.invoices && lines != [] && DistinctDestinations(lines)
    requires forall k :: 0 <= k < |lines| ==> ProjectExists(t, lines[k].destination)
    ensures Sound(Divided(t, id, lines))
  {
    DividedConstrained(t, id, lines);
    var t' := Divided(t, id, lines);
    DividedIds(t, id, lines);
    forall i, k, j, l | ClaimAt(t', i, k).Some? && ClaimAt(t', i, k) == ClaimAt(t', j, l)
      ensures i == j && k == l
    {
      DividedClaims(t, id, lines, i, k);
      DividedClaims(t, id, lines, j, l);
      if i != id {
        OthersAreNotHeld(t, id, i, k);
      }
      if j != id {
        OthersAreNotHeld(t, id, j, l);
      }
    }
  }

  lemma DividedClaimsExist(t: Tables, id: Id, lines: seq<SplitLine>)
    requires Sound(t) && id in t.invoices && lines != [] && DistinctDestinations(lines)
    ensures ClaimsExist(Divided(t, id, lines))
  {
    var t' := Divided(t, id, lines);
    forall i, k | ClaimAt(t', i, k).Some?
      ensures ClaimAt(t', i, k).value in t'.expenses
    {
      DividedClaims(t, id, lines, i, k);
      if i != id {
        OthersAreNotHeld(t, id, i, k);
      }
    }
  }

  lemma DividedExpense(t: Tables, id: Id, lines: seq<SplitLine>, e: Id)
    requires Sound(t) && id in t.invoices && lines != [] && DistinctDestinations(lines)
    requires forall k :: 0 <= k < |lines| ==> ProjectExists(t, lines[k].destination)
    requires e in Divided(t, id, lines).expenses
    ensures e < Divided(t, id, lines).nextExpense
    ensures ProjectExists(t, Divided(t, id, lines).expenses[e].destination)
  {
    var ids := LineIds(Held(t, id), lines, t.nextExpense);
    DividedIds(t, id, lines);
    if e in ids {
      DividedLine(t, id, lines, IndexOf(ids, e));
    } else {
      DividedElsewhere(t, id, lines, e);
    }
  }

  lemma DividedConstrained(t: Tables, id: Id, lines: seq<SplitLine>)
    requires Sound(t) && id in t.invoices && lines != [] && DistinctDestinations(lines)
    requires forall k :: 0 <= k < |lines| ==> ProjectExists(t, lines[k].destination)
    ensures Constrained(Divided(t, id, lines))
  {
    var t' := Divided(t, id, lines);
    DividedClaimsExist(t, id, lines);
    forall e | e in t'.expenses
      ensures e < t'.nextExpense && ProjectExists(t', t'.expenses[e].destination)
    {
      DividedExpense(t, id, lines, e);
    }
    forall i | i in t'.lines
      ensures DistinctLines(t'.lines[i])
      ensures forall k :: 0 <= k < |t'.lines[i]| ==> ProjectExists(t', t'.lines[i][k].destination)
    {
    }
  }

  /** What another invoice claims is neither held by this one nor a new id. */
  lemma OthersAreNotHeld(t: Tables, id: Id, i: Id, k: int)
    requires Sound(t) && id in t.invoices && i != id && ClaimAt(t, i, k).Some?
    ensures ClaimAt(t, i, k).value !in HeldIds(Held(t, id))
    ensures ClaimAt(t, i, k).value in t.expenses
    ensures ClaimAt(t, i, k).value < t.nextExpense
  {
    HoldingsAreTheClaims(t, id);
  }

  // ---------------------------------------------------------------- the balance after a division

  /** The rows written for the lines carry their amounts. */
  lemma {:induction false} LineAmountsOf(lines: seq<SplitLine>, ids: seq<Id>)
    requires |ids| == |lines|
    ensures LineAmounts(NewLines(lines, ids)) == Amounts(lines)
  {
  }

  /** No expense this invoice holds was typed with a quantity and a unit price. */
  ghost predicate HeldWithoutBreakdown(t: Tables, id: Id)
    requires id in t.invoices && id in t.lines
  {
    forall e :: e in HeldIds(Held(t, id)) && e in t.expenses ==> t.expenses[e].breakdown.None?
  }

  lemma DividedLineCarries(t: Tables, id: Id, lines: seq<SplitLine>, k: nat)
    requires Sound(t) && id in t.invoices && k < |lines| && DistinctDestinations(lines)
    requires HeldWithoutBreakdown(t, id)
    ensures var e := LineIds(Held(t, id), lines, t.nextExpense)[k];
      && Carries(Divided(t, id, lines), e, lines[k].amount, t.invoices[id].fiscal)
      && Divided(t, id, lines).expenses[e].destination == lines[k].destination
  {
    DividedIds(t, id, lines);
    DividedLine(t, id, lines, k);
    var e := LineIds(Held(t, id), lines, t.nextExpense)[k];
    assert e in t.expenses ==> e < t.nextExpense;
  }

  /** The invoice divided balances, whatever it had before. */
  lemma DividedBalances(t: Tables, id: Id, lines: seq<SplitLine>)
    requires Sound(t) && id in t.invoices && lines != [] && DistinctDestinations(lines)
    requires HeldWithoutBreakdown(t, id)
    requires CheckSplit(t.invoices[id].fiscal.Total(), Amounts(lines)).ok
    ensures id in Divided(t, id, lines).invoices && id in Divided(t, id, lines).lines
    ensures InvoiceBalanced(Divided(t, id, lines), id)
  {
    var t' := Divided(t, id, lines);
    var ids := LineIds(Held(t, id), lines, t.nextExpense);
    LineAmountsOf(lines, ids);
    forall k | 0 <= k < |lines|
      ensures Carries(t', ids[k], lines[k].amount, t.invoices[id].fiscal)
      ensures t'.expenses[ids[k]].destination == lines[k].destination
    {
      DividedLineCarries(t, id, lines, k);
    }
    if |lines| == 1 {
      assert Amounts(lines) == [lines[0].amount];
      assert Sum([lines[0].amount]) == lines[0].amount;
    }
  }

  /** An invoice whose row, lines and claimed expenses are the same in both tables balances in both. */
  lemma BalanceIsLocal(t: Tables, t': Tables, i: Id)
    requires i in t.invoices && i in t.lines && i in t'.invoices && i in t'.lines
    requires t'.invoices[i] == t.invoices[i] && t'.lines[i] == t.lines[i]
    requires forall k :: ClaimAt(t, i, k).Some? ==>
      var e := ClaimAt(t, i, k).value; e in t.expenses && e in t'.expenses && t'.expenses[e] == t.expenses[e]
    requires InvoiceBalanced(t, i)
    ensures InvoiceBalanced(t', i)
  {
    var ls := t.lines[i];
    assert ClaimAt(t, i, -1) == t.invoices[i].expense;
    forall k | 0 <= k < |ls| && ls != []
      ensures LineBalanced(t', ls[k], t.invoices[i].fiscal)
    {
      assert LineBalanced(t, ls[k], t.invoices[i].fiscal);
      assert ClaimAt(t, i, k) == ls[k].expense;
    }
  }

  lemma DividedElsewhereBalances(t: Tables, id: Id, lines: seq<SplitLine>, i: Id)
    requires Sound(t) && id in t.invoices && lines != [] && DistinctDestinations(lines)
    requires i in t.invoices && i != id && InvoiceBalanced(t, i)
    ensures InvoiceBalanced(Divided(t, id, lines), i)
  {
    var t' := Divided(t, id, lines);
    forall k | ClaimAt(t, i, k).Some?
      ensures var e := ClaimAt(t, i, k).value; e in t.expenses && e in t'.expenses && t'.expenses[e] == t.expenses[e]
    {
      OthersAreNotHeld(t, id, i, k);
      DividedElsewhere(t, id, lines, ClaimAt(t, i, k).value);
    }
    BalanceIsLocal(t, t', i);
  }

  // ---------------------------------------------------------------- applySplits as a whole

  /** When `applySplits` is accepted. */
  predicate Divisible(t: Tables, id: Id, rawLines: seq<SplitLine>)
    requires id in t.invoices && id in t.lines
  {
    && (t.invoices[id].expense.None? || t.invoices[id].owned)
    && rawLines != []
    && Sum(Amounts(rawLines)) == t.invoices[id].fiscal.Total()
    && forall k :: 0 <= k < |rawLines| ==> ProjectExists(t, rawLines[k].destination)
  }

  lemma MergedEmpty(lines: seq<SplitLine>)
    ensures Merged(lines) == [] <==> lines == []
  {
    if lines != [] {
      DestinationsAreDistinct(lines);
      assert lines[0].destination in Destinations(lines);
    }
  }

  lemma MergedProjects(t: Tables, lines: seq<SplitLine>)
    ensures (forall k :: 0 <= k < |Merged(lines)| ==> ProjectExists(t, Merged(lines)[k].destination))
      <==> (forall k :: 0 <= k < |lines| ==> ProjectExists(t, lines[k].destination))
  {
    DestinationsAreDistinct(lines);
    if forall k :: 0 <= k < |Merged(lines)| ==> ProjectExists(t, Merged(lines)[k].destination) {
      forall k | 0 <= k < |lines|
        ensures ProjectExists(t, lines[k].destination)
      {
        assert lines[k].destination in Destinations(lines);
        var j :| 0 <= j < |Destinations(lines)| && Destinations(lines)[j] == lines[k].destination;
        assert Merged(lines)[j].destination == lines[k].destination;
      }
    }
    if forall k :: 0 <= k < |lines| ==> ProjectExists(t, lines[k].destination) {
      forall k | 0 <= k < |Merged(lines)|
        ensures ProjectExists(t, Merged(lines)[k].destination)
      {
        assert Merged(lines)[k].destination in Destinations(lines);
      }
    }
  }

  /** The split is accepted exactly when the invoice is not linked and the lines, as given, add up and exist. */
  lemma SplitsAccepted(t: Tables, id: Id, rawLines: seq<SplitLine>)
    requires id in t.invoices && id in t.lines
    ensures ApplySplits(t, id, rawLines).outcome.Done? <==> Divisible(t, id, rawLines)
    ensures ApplySplits(t, id, rawLines).tables == if Divisible(t, id, rawLines)
      then Divided(t, id, Merged(rawLines)) else t
  {
    MergedEmpty(rawLines);
    MergedProjects(t, rawLines);
    MergedKeepsTheSum(rawLines);
  }

  /** Position of line k among the claims of the invoice. */
  function ClaimPosition(lines: seq<SplitLine>, k: nat): int {
    if |lines| > 1 then k else -1
  }

  /**
   * Each line has exactly one expense, charged with its amount and destination, reused when the invoice already
   * had one for that destination and new otherwise; and the invoice claims nothing else.
   */
  ghost predicate OneExpensePerLine(t: Tables, t': Tables, id: Id, held: seq<Holding>, lines: seq<SplitLine>) {
    && (forall k :: 0 <= k < |lines| ==> LineServed(t, t', ClaimAt(t', id, ClaimPosition(lines, k)), held, lines[k]))
    && (forall p :: ClaimAt(t', id, p).Some? ==> if |lines| > 1 then 0 <= p < |lines| else p == -1)
  }

  ghost predicate LineServed(t: Tables, t': Tables, e: Option<Id>, held: seq<Holding>, line: SplitLine) {
    && e.Some? && e.value in t'.expenses
    && t'.expenses[e.value].destination == line.destination
    && t'.expenses[e.value].amount == line.amount
    && if ReuseOf(held, line.destination).Some? then e == ReuseOf(held, line.destination) else e.value !in t.expenses
  }

  /** What the invoice held survives exactly when a line repeats its destination. */
  ghost predicate KeepsOnlyTheRepeated(t': Tables, held: seq<Holding>, lines: seq<SplitLine>) {
    forall e :: e in HeldIds(held) ==>
      (e in t'.expenses <==> exists k :: 0 <= k < |lines| && ReuseOf(held, lines[k].destination) == Some(e))
  }

  /** Nothing outside the invoice changes: no other claim, and no expense it did not hold. */
  ghost predicate TouchesNothingElse(t: Tables, t': Tables, id: Id, held: seq<Holding>) {
    && (forall e :: e in t.expenses && e !in HeldIds(held) ==> e in t'.expenses && t'.expenses[e] == t.expenses[e])
    && (forall i, p :: i != id ==> ClaimAt(t', i, p) == ClaimAt(t, i, p))
    && t'.invoices - {id} == t.invoices - {id}
    && t'.lines - {id} == t.lines - {id}
  }

  /** What an accepted split does to the expenses of the invoice and to the rest of the ledger. */
  lemma SplitEffect(t: Tables, id: Id, rawLines: seq<SplitLine>)
    requires Sound(t) && id in t.invoices && Divisible(t, id, rawLines)
    ensures var t' := ApplySplits(t, id, rawLines).tables;
      && OneExpensePerLine(t, t', id, Held(t, id), Merged(rawLines))
      && KeepsOnlyTheRepeated(t', Held(t, id), Merged(rawLines))
      && TouchesNothingElse(t, t', id, Held(t, id))
  {
    SplitsAccepted(t, id, rawLines);
    MergedIsDistinct(rawLines);
    var lines := Merged(rawLines);
    DividedServes(t, id, lines);
    DividedKeepsRepeated(t, id, lines);
    DividedTouches(t, id, lines);
  }

  lemma DividedServesLine(t: Tables, id: Id, lines: seq<SplitLine>, k: nat)
    requires Sound(t) && id in t.invoices && k < |lines| && DistinctDestinations(lines)
    ensures var t' := Divided(t, id, lines);
      LineServed(t, t', ClaimAt(t', id, ClaimPosition(lines, k)), Held(t, id), lines[k])
  {
    DividedClaims(t, id, lines, id, ClaimPosition(lines, k));
    DividedLine(t, id, lines, k);
    HeldIsOld(t, id);
    LineIdsAreDistinct(Held(t, id), lines, t.nextExpense);
  }

  lemma HeldIsOld(t: Tables, id: Id)
    requires Sound(t) && id in t.invoices
    ensures DistinctHoldings(Held(t, id))
    ensures forall h :: h in Held(t, id) ==> h.expense < t.nextExpense
  {
    HoldingsAreTheClaims(t, id);
    forall h | h in Held(t, id)
      ensures h.expense < t.nextExpense
    {
      assert h.expense in HeldIds(Held(t, id));
    }
  }

  lemma DividedServes(t: Tables, id: Id, lines: seq<SplitLine>)
    requires Sound(t) && id in t.invoices && lines != [] && DistinctDestinations(lines)
    ensures OneExpensePerLine(t, Divided(t, id, lines), id, Held(t, id), lines)
  {
    var held := Held(t, id);
    var t' := Divided(t, id, lines);
    forall k | 0 <= k < |lines|
      ensures LineServed(t, t', ClaimAt(t', id, ClaimPosition(lines, k)), held, lines[k])
    {
      DividedServesLine(t, id, lines, k);
    }
    forall p | ClaimAt(t', id, p).Some?
      ensures if |lines| > 1 then 0 <= p < |lines| else p == -1
    {
      DividedClaims(t, id, lines, id, p);
    }
  }

  lemma DividedKeepsRepeated(t: Tables, id: Id, lines: seq<SplitLine>)
    requires Sound(t) && id in t.invoices && lines != [] && DistinctDestinations(lines)
    ensures KeepsOnlyTheRepeated(Divided(t, id, lines), Held(t, id), lines)
  {
    var held := Held(t, id);
    HeldIsOld(t, id);
    HoldingsAreTheClaims(t, id);
    forall e | e in HeldIds(held)
      ensures e in Divided(t, id, lines).expenses <==>
        exists k :: 0 <= k < |lines| && ReuseOf(held, lines[k].destination) == Some(e)
    {
      SurvivesWhenReused(held, lines, t.nextExpense, e);
    }
  }

  lemma DividedTouches(t: Tables, id: Id, lines: seq<SplitLine>)
    requires Sound(t) && id in t.invoices && lines != [] && DistinctDestinations(lines)
    ensures TouchesNothingElse(t, Divided(t, id, lines), id, Held(t, id))
  {
    forall e | e in t.expenses && e !in HeldIds(Held(t, id))
      ensures e in Divided(t, id, lines).expenses && Divided(t, id, lines).expenses[e] == t.expenses[e]
    {
      DividedElsewhere(t, id, lines, e);
    }
    forall i, p | i != id
      ensures ClaimAt(Divided(t, id, lines), i, p) == ClaimAt(t, i, p)
    {
      DividedClaims(t, id, lines, i, p);
    }
  }

  lemma SurvivesWhenReused(held: seq<Holding>, lines: seq<SplitLine>, next: Id, e: Id)
    requires DistinctHoldings(held) && DistinctDestinations(lines)
    requires forall h :: h in held ==> h.expense < next
    requires e in HeldIds(held)
    ensures e in LineIds(held, lines, next) <==>
      exists k :: 0 <= k < |lines| && ReuseOf(held, lines[k].destination) == Some(e)
  {
    LineIdsAreDistinct(held, lines, next);
    var ids := LineIds(held, lines, next);
    if e in ids {
      var k := IndexOf(ids, e);
      assert ReuseOf(held, lines[k].destination) == Some(e);
    }
  }

  // ---------------------------------------------------------------- applying the same split twice

  function Served(lines: seq<SplitLine>, ids: seq<Id>): (r: seq<Holding>)
    requires |ids| == |lines|
    ensures |r| == |lines| && forall k :: 0 <= k < |r| ==> r[k] == Holding(lines[k].destination, ids[k])
  {
    seq(|lines|, k requires 0 <= k < |lines| => Holding(lines[k].destination, ids[k]))
  }

  lemma {:induction false} NewLinesServe(lines: seq<SplitLine>, ids: seq<Id>)
    requires |ids| == |lines|
    ensures LineHoldings(NewLines(lines, ids)) == Served(lines, ids)
  {
    if lines != [] {
      var n := |lines| - 1;
      NewLinesServe(lines[..n], ids[..n]);
      assert NewLines(lines, ids)[..n] == NewLines(lines[..n], ids[..n]);
    }
  }

  /** A line finds the expense that serves its destination. */
  lemma {:induction false} ServedIsReused(lines: seq<SplitLine>, ids: seq<Id>, k: nat)
    requires |ids| == |lines| && k < |lines| && DistinctDestinations(lines)
    ensures ReuseOf(Served(lines, ids), lines[k].destination) == Some(ids[k])
  {
    var held := Served(lines, ids);
    ReuseIsHeld(held, lines[k].destination);
    assert held[k] in held;
  }

  lemma {:induction false} ServedKeepsIds(lines: seq<SplitLine>, ids: seq<Id>, next: Id, m: nat)
    requires |ids| == |lines| && m <= |lines| && DistinctDestinations(lines)
    ensures LineIds(Served(lines, ids), lines[..m], next) == ids[..m]
    ensures FreshCount(Served(lines, ids), lines[..m]) == 0
  {
    if m > 0 {
      ServedKeepsIds(lines, ids, next, m - 1);
      assert lines[..m][..m - 1] == lines[..m - 1];
      ServedIsReused(lines, ids, m - 1);
    }
  }

  lemma DividedHolds(t: Tables, id: Id, lines: seq<SplitLine>)
    requires Sound(t) && id in t.invoices && lines != [] && DistinctDestinations(lines)
    ensures id in Divided(t, id, lines).invoices && id in Divided(t, id, lines).lines
    ensures Held(Divided(t, id, lines), id) == Served(lines, LineIds(Held(t, id), lines, t.nextExpense))
  {
    var ids := LineIds(Held(t, id), lines, t.nextExpense);
    NewLinesServe(lines, ids);
    if |lines| == 1 {
      DividedLine(t, id, lines, 0);
    }
  }

  /** Dividing twice with the same lines gives the same tables, ids included. */
  lemma DividedTwice(t: Tables, id: Id, lines: seq<SplitLine>)
    requires Sound(t) && id in t.invoices && lines != [] && DistinctDestinations(lines)
    ensures id in Divided(t, id, lines).invoices && id in Divided(t, id, lines).lines
    ensures Divided(Divided(t, id, lines), id, lines) == Divided(t, id, lines)
  {
    var t1 := Divided(t, id, lines);
    var ids := LineIds(Held(t, id), lines, t.nextExpense);
    DividedHolds(t, id, lines);
    DividedIds(t, id, lines);
    RechargedTwice(t.expenses, HeldIds(Held(t, id)), HeldIds(Served(lines, ids)), ids, t.invoices[id].fiscal, lines);
    DividedFixpoint(t1, id, lines, ids);
  }

  /** Tables that already hold exactly these lines are not changed by dividing again. */
  lemma DividedFixpoint(t: Tables, id: Id, lines: seq<SplitLine>, ids: seq<Id>)
    requires id in t.invoices && id in t.lines && lines != [] && DistinctDestinations(lines) && |ids| == |lines|
    requires Held(t, id) == Served(lines, ids)
    requires t.invoices[id] == Invoice(t.invoices[id].fiscal, if |lines| > 1 then None else Some(ids[0]), true)
    requires t.lines[id] == if |lines| > 1 then NewLines(lines, ids) else []
    requires Recharged(t.expenses, HeldIds(Served(lines, ids)), ids, t.invoices[id].fiscal, lines) == t.expenses
    ensures Divided(t, id, lines) == t
  {
    ServedKeepsAllIds(lines, ids, t.nextExpense);
    assert t.invoices[id := t.invoices[id]] == t.invoices;
    assert t.lines[id := t.lines[id]] == t.lines;
  }

  lemma ServedKeepsAllIds(lines: seq<SplitLine>, ids: seq<Id>, next: Id)
    requires |ids| == |lines| && DistinctDestinations(lines)
    ensures LineIds(Served(lines, ids), lines, next) == ids
    ensures FreshCount(Served(lines, ids), lines) == 0
  {
    ServedKeepsIds(lines, ids, next, |lines|);
    assert lines[..|lines|] == lines && ids[..|ids|] == ids;
  }

  lemma RechargedTwice(expenses: map<Id, Expense>, drop: set<Id>, drop': set<Id>, ids: seq<Id>, f: Fiscal,
      lines: seq<SplitLine>)
    requires |ids| == |lines| && DistinctIds(ids)
    requires drop' == HeldIds(Served(lines, ids))
    ensures var once := Recharged(expenses, drop, ids, f, lines);
      Recharged(once, drop', ids, f, lines) == once
  {
    var once := Recharged(expenses, drop, ids, f, lines);
    var again := Recharged(once, drop', ids, f, lines);
    forall e
      ensures e in drop' ==> e in ids
    {
    }
    forall e | e in once
      ensures again[e] == once[e]
    {
      if e in ids {
        RechargedLine(expenses, drop, ids, f, lines, IndexOf(ids, e));
        RechargedLine(once, drop', ids, f, lines, IndexOf(ids, e));
      }
    }
  }

  /** `applySplits` is idempotent: repeating an accepted split is accepted and changes nothing. */
  lemma SplitsAreIdempotent(t: Tables, id: Id, rawLines: seq<SplitLine>)
    requires Sound(t) && id in t.invoices && Divisible(t, id, rawLines)
    ensures var t' := ApplySplits(t, id, rawLines).tables;
      id in t'.invoices && id in t'.lines && ApplySplits(t', id, rawLines) == Step(t', Done)
  {
    SplitsAccepted(t, id, rawLines);
    MergedIsDistinct(rawLines);
    DividedTwice(t, id, Merged(rawLines));
    SplitsAccepted(Divided(t, id, Merged(rawLines)), id, rawLines);
  }
}
