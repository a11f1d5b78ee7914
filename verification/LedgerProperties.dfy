/** What every operation of the ledger keeps, exactly when an operation breaks it, and safety over whole runs. */
module LedgerProperties {
  import opened Wrappers
  import opened InvoiceSplit
  import opened InvoiceLedger
  import opened LedgerDivision

  // ---------------------------------------------------------------- expenses rewritten in place

  /** Rewriting expenses, without adding or dropping any, keeps sound tables sound. */
  lemma RewritingKeepsSound(t: Tables, expenses: map<Id, Expense>)
    requires Sound(t) && expenses.Keys == t.expenses.Keys
    requires forall e :: e in expenses ==> ProjectExists(t, expenses[e].destination)
    ensures Sound(t.(expenses := expenses))
  {
    var t' := t.(expenses := expenses);
    assert forall i, k :: ClaimAt(t', i, k) == ClaimAt(t, i, k);
  }

  /** Invoices that do not claim a rewritten expense stay balanced. */
  lemma RewritingKeepsOthers(t: Tables, expenses: map<Id, Expense>, i: Id)
    requires Sound(t) && expenses.Keys == t.expenses.Keys
    requires i in t.invoices && InvoiceBalanced(t, i)
    requires forall k :: ClaimAt(t, i, k).Some? ==>
      var e := ClaimAt(t, i, k).value; e in t.expenses && expenses[e] == t.expenses[e]
    ensures InvoiceBalanced(t.(expenses := expenses), i)
  {
    BalanceIsLocal(t, t.(expenses := expenses), i);
  }

  lemma UpdateExpenseKeepsSound(t: Tables, e: Id, payload: Option<Payload>, d: Option<Destination>)
    requires Sound(t)
    ensures Sound(UpdateExpense(t, e, payload, d).tables)
    ensures UpdateExpense(t, e, payload, d).outcome.Rejected? ==> UpdateExpense(t, e, payload, d).tables == t
  {
    if UpdateExpense(t, e, payload, d).outcome.Done? {
      RewritingKeepsSound(t, UpdateExpense(t, e, payload, d).tables.expenses);
    }
  }

  /** An invoice that does not claim `e` is not affected by an update of `e`. */
  lemma UpdateExpenseKeepsOthers(t: Tables, e: Id, payload: Option<Payload>, d: Option<Destination>, i: Id)
    requires Sound(t) && i in t.invoices && InvoiceBalanced(t, i)
    requires forall k :: ClaimAt(t, i, k) != Some(e)
    ensures InvoiceBalanced(UpdateExpense(t, e, payload, d).tables, i)
  {
    if UpdateExpense(t, e, payload, d).outcome.Done? {
      RewritingKeepsOthers(t, UpdateExpense(t, e, payload, d).tables.expenses, i);
    }
  }

  lemma {:induction false} SyncedLinesEffect(expenses: map<Id, Expense>, f: Fiscal, ls: seq<Line>, many: bool)
    requires DistinctExpenses(ls)
    requires forall k :: 0 <= k < |ls| && ls[k].expense.Some? ==> ls[k].expense.value in expenses
    ensures var r := SyncedLines(expenses, f, ls, many);
      && r.Keys == expenses.Keys
      && (forall k :: 0 <= k < |ls| && ls[k].expense.Some? ==>
            r[ls[k].expense.value] ==
              Patched(expenses[ls[k].expense.value], Some(SplitPayload(f, ls[k].amount, ls[k].note, many)),
                Some(ls[k].destination)))
      && (forall e :: e in expenses && (forall k :: 0 <= k < |ls| ==> ls[k].expense != Some(e)) ==> r[e] == expenses[e])
  {
    if ls != [] {
      var n := |ls| - 1;
      SyncedLinesEffect(expenses, f, ls[..n], many);
      forall k | 0 <= k < n && ls[k].expense.Some?
        ensures ls[k].expense != ls[n].expense
      {
      }
      forall k | 0 <= k < n && ls[k].expense.Some?
        ensures ls[..n][k] == ls[k]
      {
      }
    }
  }

  lemma LinesClaimDistinctly(t: Tables, i: Id)
    requires Sound(t) && i in t.invoices
    ensures DistinctExpenses(t.lines[i])
    ensures forall k :: 0 <= k < |t.lines[i]| && t.lines[i][k].expense.Some? ==>
      t.lines[i][k].expense.value in t.expenses
  {
    var ls := t.lines[i];
    forall k, l | 0 <= k < l < |ls| && ls[k].expense.Some?
      ensures ls[k].expense != ls[l].expense
    {
      assert ClaimAt(t, i, k) == ls[k].expense && ClaimAt(t, i, l) == ls[l].expense;
    }
    forall k | 0 <= k < |ls| && ls[k].expense.Some?
      ensures ls[k].expense.value in t.expenses
    {
      assert ClaimAt(t, i, k) == ls[k].expense;
    }
  }

  // ---------------------------------------------------------------- applyDestination

  /** The shape an invoice keeps even while its expenses do not yet say what it says. */
  ghost predicate Shaped(t: Tables, i: Id)
    requires i in t.invoices && i in t.lines
  {
    var invoice, ls := t.invoices[i], t.lines[i];
    && (ls != [] ==> |ls| >= 2 && invoice.expense.None? && Sum(LineAmounts(ls)) == invoice.fiscal.Total()
                     && forall k :: 0 <= k < |ls| ==> ls[k].expense.Some? && Plain(t, ls[k].expense.value))
    && (invoice.expense.Some? && invoice.owned ==> Plain(t, invoice.expense.value))
    && (invoice.expense.None? ==> invoice.owned)
  }

  ghost predicate Plain(t: Tables, e: Id) {
    e in t.expenses && t.expenses[e].breakdown.None?
  }

  ghost predicate OthersBalanced(t: Tables, id: Id)
    requires t.lines.Keys == t.invoices.Keys
  {
    forall i :: i in t.invoices && i != id ==> InvoiceBalanced(t, i)
  }

  lemma BalancedIsShaped(t: Tables, i: Id)
    requires i in t.invoices && i in t.lines && InvoiceBalanced(t, i)
    ensures Shaped(t, i)
  {
    var ls := t.lines[i];
    forall k | 0 <= k < |ls| && ls != []
      ensures ls[k].expense.Some? && Plain(t, ls[k].expense.value)
    {
      assert LineBalanced(t, ls[k], t.invoices[i].fiscal);
    }
  }

  lemma ShapedHoldsPlain(t: Tables, id: Id)
    requires Sound(t) && id in t.invoices && Shaped(t, id) && (t.invoices[id].expense.None? || t.invoices[id].owned)
    ensures HeldWithoutBreakdown(t, id)
  {
    HoldingsAreTheClaims(t, id);
    forall e | e in HeldIds(Held(t, id)) && e in t.expenses
      ensures t.expenses[e].breakdown.None?
    {
      var k :| ClaimAt(t, id, k) == Some(e);
      if k != -1 {
        assert t.lines[id][k].expense == Some(e);
      }
    }
  }

  /** An accepted split leaves sound tables, balanced for this invoice and for all that were balanced. */
  lemma SplitsKeepGood(t: Tables, id: Id, rawLines: seq<SplitLine>)
    requires Sound(t) && id in t.invoices && Shaped(t, id) && OthersBalanced(t, id)
    ensures var s := ApplySplits(t, id, rawLines);
      && (s.outcome.Rejected? ==> s.tables == t)
      && (s.outcome.Done? ==> Good(s.tables))
  {
    SplitsAccepted(t, id, rawLines);
    if Divisible(t, id, rawLines) {
      var lines := Merged(rawLines);
      MergedIsDistinct(rawLines);
      MergedEmpty(rawLines);
      MergedProjects(t, rawLines);
      MergedKeepsTheSum(rawLines);
      DividedKeepsSound(t, id, lines);
      ShapedHoldsPlain(t, id);
      DividedBalances(t, id, lines);
      forall i | i in t.invoices && i != id
        ensures InvoiceBalanced(Divided(t, id, lines), i)
      {
        DividedElsewhereBalances(t, id, lines, i);
      }
    }
  }

  lemma SyncKeepsGood(t: Tables, id: Id)
    requires Sound(t) && id in t.invoices && Shaped(t, id) && OthersBalanced(t, id) && t.lines[id] != []
    ensures Good(ApplyDestination(t, id, None).tables)
  {
    var ls, f := t.lines[id], t.invoices[id].fiscal;
    LinesClaimDistinctly(t, id);
    SyncedLinesEffect(t.expenses, f, ls, |ls| > 1);
    var expenses := SyncedLines(t.expenses, f, ls, |ls| > 1);
    var t' := t.(expenses := expenses);
    forall e | e in expenses
      ensures ProjectExists(t, expenses[e].destination)
    {
      if k :| 0 <= k < |ls| && ls[k].expense == Some(e) {
      }
    }
    RewritingKeepsSound(t, expenses);
    forall k | 0 <= k < |ls|
      ensures LineBalanced(t', ls[k], f)
    {
      assert Plain(t, ls[k].expense.value);
    }
    SyncKeepsOthers(t, id);
  }

  /** Bringing the lines of one invoice up to date touches no expense of another. */
  lemma SyncKeepsOthers(t: Tables, id: Id)
    requires Sound(t) && id in t.invoices && Shaped(t, id) && OthersBalanced(t, id) && t.lines[id] != []
    requires forall k :: 0 <= k < |t.lines[id]| && t.lines[id][k].expense.Some? ==>
      t.lines[id][k].expense.value in t.expenses
    ensures var ls := t.lines[id];
      var t' := t.(expenses := SyncedLines(t.expenses, t.invoices[id].fiscal, ls, |ls| > 1));
      forall i :: i in t.invoices && i != id ==> InvoiceBalanced(t', i)
  {
    var ls, f := t.lines[id], t.invoices[id].fiscal;
    LinesClaimDistinctly(t, id);
    SyncedLinesEffect(t.expenses, f, ls, |ls| > 1);
    forall i | i in t.invoices && i != id
      ensures InvoiceBalanced(t.(expenses := SyncedLines(t.expenses, f, ls, |ls| > 1)), i)
    {
      forall k, l | ClaimAt(t, i, k).Some? && 0 <= l < |ls|
        ensures ls[l].expense != ClaimAt(t, i, k)
      {
        assert ClaimAt(t, id, l) == ls[l].expense;
      }
      RewritingKeepsOthers(t, SyncedLines(t.expenses, f, ls, |ls| > 1), i);
    }
  }

  lemma SingleUpdateKeepsGood(t: Tables, id: Id, d: Option<Destination>)
    requires Sound(t) && id in t.invoices && Shaped(t, id) && OthersBalanced(t, id)
    requires t.lines[id] == [] && t.invoices[id].expense.Some?
    ensures var s := ApplyDestination(t, id, d);
      && (s.outcome.Rejected? ==> s.tables == t)
      && (s.outcome.Done? ==> Good(s.tables))
  {
    var e := t.invoices[id].expense.value;
    assert ClaimAt(t, id, -1) == Some(e);
    var payload := if t.invoices[id].owned then Some(ExpensePayload(t.invoices[id].fiscal)) else None;
    UpdateExpenseKeepsSound(t, e, payload, d);
    forall i | i in t.invoices && i != id
      ensures InvoiceBalanced(UpdateExpense(t, e, payload, d).tables, i)
    {
      UpdateExpenseKeepsOthers(t, e, payload, d, i);
    }
  }

  /** The tables differ in one invoice, which now has `e` as its single expense. */
  ghost predicate ClaimsOneMore(t: Tables, t': Tables, id: Id, e: Id)
  {
    && id in t.invoices && id in t'.invoices
    && t.invoices[id].expense.None?
    && t'.invoices[id].expense == Some(e) && t'.invoices[id].fiscal == t.invoices[id].fiscal
    && t'.invoices - {id} == t.invoices - {id} && t'.invoices.Keys == t.invoices.Keys
    && t'.lines == t.lines && t'.projects == t.projects && t'.nextInvoice == t.nextInvoice
  }

  lemma OneMoreClaim(t: Tables, t': Tables, id: Id, e: Id, i: Id, k: int)
    requires ClaimsOneMore(t, t', id, e)
    ensures ClaimAt(t', i, k) == if i == id && k == -1 then Some(e) else ClaimAt(t, i, k)
    ensures i in t.invoices && i != id ==> t'.invoices[i] == t.invoices[i]
  {
    if i in t.invoices && i != id {
      assert i in t'.invoices - {id} && (t'.invoices - {id})[i] == (t.invoices - {id})[i];
    }
  }

  /** Claiming an expense nobody claims keeps sound tables sound. */
  lemma NewClaimKeepsSound(t: Tables, t': Tables, id: Id, e: Id)
    requires Sound(t) && ClaimsOneMore(t, t', id, e)
    requires forall i, k :: ClaimAt(t, i, k) != Some(e)
    requires t.expenses.Keys <= t'.expenses.Keys && e in t'.expenses
    requires forall e :: e in t'.expenses ==> e < t'.nextExpense && ProjectExists(t', t'.expenses[e].destination)
    ensures Sound(t')
  {
    forall i, k
      ensures ClaimAt(t', i, k) == if i == id && k == -1 then Some(e) else ClaimAt(t, i, k)
    {
      OneMoreClaim(t, t', id, e, i, k);
    }
    forall i | i in t.invoices
      ensures t'.invoices[i].fiscal == t.invoices[i].fiscal
    {
      OneMoreClaim(t, t', id, e, i, 0);
    }
  }

  lemma NotYetClaimed(t: Tables)
    requires Sound(t)
    ensures forall i, k :: ClaimAt(t, i, k) != Some(t.nextExpense)
  {
    forall i, k | ClaimAt(t, i, k).Some?
      ensures ClaimAt(t, i, k).value < t.nextExpense
    {
    }
  }

  lemma BirthKeepsGood(t: Tables, id: Id, d: Destination)
    requires Sound(t) && id in t.invoices && Shaped(t, id) && OthersBalanced(t, id)
    requires t.lines[id] == [] && t.invoices[id].expense.None?
    ensures var s := ApplyDestination(t, id, Some(d));
      && (s.outcome.Rejected? ==> s.tables == t)
      && (s.outcome.Done? ==> Good(s.tables))
  {
    var t' := ApplyDestination(t, id, Some(d)).tables;
    if ProjectExists(t, d) {
      NotYetClaimed(t);
      NewClaimKeepsSound(t, t', id, t.nextExpense);
      forall i | i in t.invoices && i != id
        ensures InvoiceBalanced(t', i)
      {
        BalanceIsLocal(t, t', i);
      }
    }
  }

  /** Giving a shaped invoice its destination balances the ledger, or is rejected and changes nothing. */
  lemma ApplyDestinationKeepsGood(t: Tables, id: Id, d: Option<Destination>)
    requires Sound(t) && id in t.invoices && Shaped(t, id) && OthersBalanced(t, id)
    ensures var s := ApplyDestination(t, id, d);
      && (s.outcome.Rejected? ==> s.tables == t)
      && (s.outcome.Done? ==> Good(s.tables))
  {
    if t.lines[id] != [] {
      if d.Some? {
        SplitsKeepGood(t, id, [SplitLine(d.value, t.invoices[id].fiscal.Total(), None)]);
      } else {
        SyncKeepsGood(t, id);
      }
    } else if t.invoices[id].expense.Some? {
      SingleUpdateKeepsGood(t, id, d);
    } else if d.Some? {
      BirthKeepsGood(t, id, d.value);
    }
  }

  /** It is rejected only for a project that does not exist. */
  lemma DestinationRejected(t: Tables, id: Id, d: Option<Destination>)
    requires Sound(t) && id in t.invoices && Shaped(t, id)
    ensures ApplyDestination(t, id, d).outcome ==
      if d.Some? && !ProjectExists(t, d.value) then Rejected(BadRequest) else Done
  {
    if t.lines[id] != [] && d.Some? {
      var line := SplitLine(d.value, t.invoices[id].fiscal.Total(), None);
      SplitsAccepted(t, id, [line]);
      assert Amounts([line]) == [line.amount];
      assert Sum([line.amount]) == line.amount;
      assert [line][0] == line;
    }
    assert ClaimAt(t, id, -1) == t.invoices[id].expense;
  }

  // ---------------------------------------------------------------- update

  /** The invoice has expenses of its own that must follow it. */
  predicate HasOwnExpenses(t: Tables, id: Id)
    requires id in t.invoices && id in t.lines
  {
    t.lines[id] != [] || (t.invoices[id].owned && t.invoices[id].expense.Some?)
  }

  /** What the expenses of an invoice repeat of it changes. */
  predicate Repriced(f: Fiscal, g: Fiscal) {
    FactsOf(f) != FactsOf(g) || f.Total() != g.Total()
  }

  /** The checks `update` makes before it saves anything. */
  predicate UpdateChecked(t: Tables, id: Id, f: Fiscal) {
    && id in t.invoices && id in t.lines
    && (SameDocument(f, t.invoices[id].fiscal) || !Taken(t, f, Some(id)))
    && (t.lines[id] != [] ==> f.Total() == t.invoices[id].fiscal.Total())
  }

  /** The update that leaves the invoice saved and its expenses behind: the new destination does not exist. */
  predicate LeavesExpensesBehind(t: Tables, id: Id, f: Fiscal, d: Option<Destination>) {
    && UpdateChecked(t, id, f)
    && d.Some? && !ProjectExists(t, d.value)
    && HasOwnExpenses(t, id)
    && Repriced(t.invoices[id].fiscal, f)
  }

  function Refiscalled(t: Tables, id: Id, f: Fiscal): Tables
    requires id in t.invoices
  {
    t.(invoices := t.invoices[id := t.invoices[id].(fiscal := f)])
  }

  lemma RefiscalledIsSound(t: Tables, id: Id, f: Fiscal)
    requires Sound(t) && UpdateChecked(t, id, f)
    ensures Sound(Refiscalled(t, id, f))
  {
    assert forall i, k :: ClaimAt(Refiscalled(t, id, f), i, k) == ClaimAt(t, i, k);
  }

  lemma RefiscalledIsReady(t: Tables, id: Id, f: Fiscal)
    requires Good(t) && UpdateChecked(t, id, f)
    ensures var t1 := Refiscalled(t, id, f); Sound(t1) && Shaped(t1, id) && OthersBalanced(t1, id)
  {
    var t1 := Refiscalled(t, id, f);
    RefiscalledIsSound(t, id, f);
    BalancedIsShaped(t, id);
    forall i | i in t.invoices && i != id
      ensures InvoiceBalanced(t1, i)
    {
      BalanceIsLocal(t, t1, i);
    }
  }

  /**
   * `update` keeps the tables sound always, and the ledger balanced exactly unless it names a project that does
   * not exist while changing what the invoice's own expenses repeat: the fiscal change is then saved and the
   * expenses are not.
   */
  lemma UpdateKeepsGood(t: Tables, id: Id, f: Fiscal, d: Option<Destination>)
    requires Good(t)
    ensures Sound(Update(t, id, f, d).tables)
    ensures Balanced(Update(t, id, f, d).tables) <==> !LeavesExpensesBehind(t, id, f, d)
  {
    if UpdateChecked(t, id, f) {
      var t1 := Refiscalled(t, id, f);
      RefiscalledIsReady(t, id, f);
      ApplyDestinationKeepsGood(t1, id, d);
      DestinationRejected(t1, id, d);
      if d.Some? && !ProjectExists(t, d.value) {
        StaleUnlessUnchanged(t, id, f);
      }
    }
  }

  lemma StaleUnlessUnchanged(t: Tables, id: Id, f: Fiscal)
    requires Good(t) && UpdateChecked(t, id, f)
    ensures InvoiceBalanced(Refiscalled(t, id, f), id) <==>
      !(HasOwnExpenses(t, id) && Repriced(t.invoices[id].fiscal, f))
  {
    var t1 := Refiscalled(t, id, f);
    var ls := t.lines[id];
    assert InvoiceBalanced(t, id);
    if ls != [] {
      assert LineBalanced(t, ls[0], t.invoices[id].fiscal);
      if FactsOf(f) == FactsOf(t.invoices[id].fiscal) {
        forall k | 0 <= k < |ls|
          ensures LineBalanced(t1, ls[k], f)
        {
          assert LineBalanced(t, ls[k], t.invoices[id].fiscal);
        }
      } else {
        assert !LineBalanced(t1, ls[0], f);
      }
    }
  }

  /** Saving the same fiscal data again, without a destination, brings the expenses back in line. */
  lemma UpdateRepairs(t: Tables, id: Id, f: Fiscal, d: Option<Destination>)
    requires Good(t) && UpdateChecked(t, id, f)
    ensures Good(Update(Update(t, id, f, d).tables, id, f, None).tables)
  {
    RefiscalledIsReady(t, id, f);
    ApplyDestinationKeepsGood(Refiscalled(t, id, f), id, d);
    if Update(t, id, f, d).outcome.Rejected? {
      RepeatedAfterRejection(t, id, f);
    } else {
      UpdateKeepsGood(Update(t, id, f, d).tables, id, f, None);
    }
  }

  lemma RepeatedAfterRejection(t: Tables, id: Id, f: Fiscal)
    requires Good(t) && UpdateChecked(t, id, f)
    ensures Good(Update(Refiscalled(t, id, f), id, f, None).tables)
  {
    var t1 := Refiscalled(t, id, f);
    RefiscalledIsReady(t, id, f);
    assert t1.invoices[id := t1.invoices[id].(fiscal := f)] == t1.invoices;
    ApplyDestinationKeepsGood(t1, id, None);
  }

  // ---------------------------------------------------------------- link and unlink

  /** The expense of a line of some divided invoice, which `unlinkedExpenses` does not offer. */
  predicate InALine(t: Tables, e: Id) {
    exists i :: i in t.lines && exists l :: l in t.lines[i] && l.expense == Some(e)
  }

  lemma UnclaimedEverywhere(t: Tables, e: Id)
    ensures !InALine(t, e) && !LinkedElsewhere(t, e) <==> forall i, k :: ClaimAt(t, i, k) != Some(e)
  {
    if InALine(t, e) {
      var i :| i in t.lines && exists l :: l in t.lines[i] && l.expense == Some(e);
      var k :| 0 <= k < |t.lines[i]| && t.lines[i][k].expense == Some(e);
      assert ClaimAt(t, i, k) == Some(e);
    }
    if LinkedElsewhere(t, e) {
      var i :| i in t.invoices && t.invoices[i].expense == Some(e);
      assert ClaimAt(t, i, -1) == Some(e);
    }
  }

  lemma LinkClaims(t: Tables, id: Id, e: Id, sync: bool)
    requires Sound(t) && LinkExpense(t, id, e, sync).outcome.Done?
    ensures ClaimsOneMore(t, LinkExpense(t, id, e, sync).tables, id, e)
    ensures LinkExpense(t, id, e, sync).tables.expenses.Keys == t.expenses.Keys
    ensures LinkExpense(t, id, e, sync).tables.expenses - {e} == t.expenses - {e}
  {
  }

  lemma LinkKeepsSound(t: Tables, id: Id, e: Id, sync: bool)
    requires Sound(t) && !InALine(t, e)
    ensures Sound(LinkExpense(t, id, e, sync).tables)
    ensures LinkExpense(t, id, e, sync).outcome.Rejected? ==> LinkExpense(t, id, e, sync).tables == t
  {
    if LinkExpense(t, id, e, sync).outcome.Done? {
      UnclaimedEverywhere(t, e);
      LinkClaims(t, id, e, sync);
      NewClaimKeepsSound(t, LinkExpense(t, id, e, sync).tables, id, e);
    }
  }

  lemma LinkingALineClaimsTwice(t: Tables, id: Id, e: Id, sync: bool)
    requires Sound(t) && LinkExpense(t, id, e, sync).outcome.Done? && InALine(t, e)
    ensures !NoDoubleClaims(LinkExpense(t, id, e, sync).tables)
  {
    var t' := LinkExpense(t, id, e, sync).tables;
    UnclaimedEverywhere(t, e);
    LinkClaims(t, id, e, sync);
    var i, k :| ClaimAt(t, i, k) == Some(e);
    OneMoreClaim(t, t', id, e, i, k);
    OneMoreClaim(t, t', id, e, id, -1);
    assert ClaimAt(t', i, k) == ClaimAt(t', id, -1);
  }

  lemma LinkIsSoundOffTheLines(t: Tables, id: Id, e: Id, sync: bool)
    requires Sound(t)
    ensures var s := LinkExpense(t, id, e, sync);
      Sound(s.tables) <==> s.outcome.Rejected? || !InALine(t, e)
  {
    var s := LinkExpense(t, id, e, sync);
    if !InALine(t, e) {
      LinkKeepsSound(t, id, e, sync);
    } else if s.outcome.Done? {
      LinkingALineClaimsTwice(t, id, e, sync);
    } else {
      assert s.tables == t;
    }
  }

  lemma LinkKeepsBalance(t: Tables, id: Id, e: Id, sync: bool)
    requires Good(t) && !InALine(t, e) && LinkExpense(t, id, e, sync).outcome.Done?
    ensures LinkExpense(t, id, e, sync).tables.lines.Keys == LinkExpense(t, id, e, sync).tables.invoices.Keys
    ensures Balanced(LinkExpense(t, id, e, sync).tables)
  {
    var t' := LinkExpense(t, id, e, sync).tables;
    UnclaimedEverywhere(t, e);
    LinkClaims(t, id, e, sync);
    forall i | i in t.invoices && i != id
      ensures InvoiceBalanced(t', i)
    {
      OneMoreClaim(t, t', id, e, i, 0);
      forall k | ClaimAt(t, i, k).Some?
        ensures var x := ClaimAt(t, i, k).value; x in t.expenses && x in t'.expenses && t'.expenses[x] == t.expenses[x]
      {
        assert ClaimAt(t, i, k).value in t.expenses - {e};
      }
      BalanceIsLocal(t, t', i);
    }
  }

  /**
   * An accepted link keeps every expense claimed once exactly when the expense is not already that of a line: the
   * service looks for the expense among the other invoices only.
   */
  lemma LinkKeepsGood(t: Tables, id: Id, e: Id, sync: bool)
    requires Good(t)
    ensures var s := LinkExpense(t, id, e, sync);
      && (s.outcome.Rejected? ==> s.tables == t)
      && (s.outcome.Done? ==> (NoDoubleClaims(s.tables) <==> !InALine(t, e)))
      && (s.outcome.Done? && !InALine(t, e) ==> Good(s.tables))
  {
    if LinkExpense(t, id, e, sync).outcome.Done? {
      if InALine(t, e) {
        LinkingALineClaimsTwice(t, id, e, sync);
      } else {
        LinkKeepsSound(t, id, e, sync);
        LinkKeepsBalance(t, id, e, sync);
      }
    }
  }

  lemma UnlinkKeepsSound(t: Tables, id: Id)
    requires Sound(t)
    ensures Sound(UnlinkExpense(t, id).tables)
  {
    var t' := UnlinkExpense(t, id).tables;
    if UnlinkExpense(t, id).outcome.Done? {
      assert forall i, k :: ClaimAt(t', i, k) == if i == id && k == -1 then None else ClaimAt(t, i, k);
    }
  }

  lemma UnlinkIsSoundIfSound(t: Tables, id: Id)
    ensures Sound(t) ==> Sound(UnlinkExpense(t, id).tables)
  {
    if Sound(t) {
      UnlinkKeepsSound(t, id);
    }
  }

  /** Whatever an accepted link took, the expense of a line included, unlinking leaves every claim single again. */
  lemma UnlinkRepairsALink(t: Tables, id: Id, e: Id, sync: bool)
    requires Sound(t) && LinkExpense(t, id, e, sync).outcome.Done?
    ensures Sound(UnlinkExpense(LinkExpense(t, id, e, sync).tables, id).tables)
  {
    var t' := LinkExpense(t, id, e, sync).tables;
    var t'' := UnlinkExpense(t', id).tables;
    LinkClaims(t, id, e, sync);
    assert forall i, k :: ClaimAt(t'', i, k) == ClaimAt(t, i, k);
  }

  lemma UnlinkKeepsGood(t: Tables, id: Id)
    requires Good(t)
    ensures Good(UnlinkExpense(t, id).tables)
  {
    var t' := UnlinkExpense(t, id).tables;
    UnlinkKeepsSound(t, id);
    if UnlinkExpense(t, id).outcome.Done? {
      forall i | i in t.invoices && i != id
        ensures InvoiceBalanced(t', i)
      {
        BalanceIsLocal(t, t', i);
      }
    }
  }

  /** Linking without touching the expense and unlinking again is as if nothing had happened. */
  lemma UnlinkUndoesLink(t: Tables, id: Id, e: Id)
    requires Good(t) && LinkExpense(t, id, e, false).outcome.Done?
    ensures UnlinkExpense(LinkExpense(t, id, e, false).tables, id) == Step(t, Done)
  {
    assert InvoiceBalanced(t, id);
    assert t.invoices[id := t.invoices[id]] == t.invoices;
  }

  // ---------------------------------------------------------------- create, remove, assign

  lemma SavedIsSound(t: Tables, f: Fiscal)
    requires Sound(t) && !Taken(t, f, None)
    ensures Sound(Saved(t, f))
  {
    assert forall i, k :: ClaimAt(Saved(t, f), i, k) == ClaimAt(t, i, k);
  }

  lemma SavedIsGood(t: Tables, f: Fiscal)
    requires Good(t) && !Taken(t, f, None)
    ensures Good(Saved(t, f))
  {
    SavedIsSound(t, f);
    forall i | i in t.invoices
      ensures InvoiceBalanced(Saved(t, f), i)
    {
      BalanceIsLocal(t, Saved(t, f), i);
    }
  }

  lemma SavedClaimsNothing(t: Tables, f: Fiscal, e: Id)
    requires Sound(t)
    ensures InALine(Saved(t, f), e) ==> InALine(t, e)
  {
    var t1 := Saved(t, f);
    if InALine(t1, e) {
      var i :| i in t1.lines && exists l :: l in t1.lines[i] && l.expense == Some(e);
      assert i in t.lines && t.lines[i] == t1.lines[i];
    }
  }

  /** The invoice just saved receives its expense, or the attempt is rejected and changes nothing. */
  lemma PlacingKeepsGood(t: Tables, id: Id, d: Option<Destination>, link: Option<Id>, sync: bool)
    requires Good(t) && id in t.invoices
    requires link.Some? ==> !InALine(t, link.value)
    ensures var placed := if link.Some? then LinkExpense(t, id, link.value, sync) else ApplyDestination(t, id, d);
      && (placed.outcome.Rejected? ==> placed.tables == t)
      && (placed.outcome.Done? ==> Good(placed.tables))
  {
    if link.Some? {
      LinkKeepsGood(t, id, link.value, sync);
    } else {
      BalancedIsShaped(t, id);
      ApplyDestinationKeepsGood(t, id, d);
    }
  }

  lemma DeletedUndoesSaved(t: Tables, f: Fiscal)
    requires Good(t)
    ensures Deleted(Saved(t, f), t.nextInvoice) == t.(nextInvoice := t.nextInvoice + 1)
  {
    assert t.nextInvoice !in t.invoices && t.lines.Keys == t.invoices.Keys;
    AddedAndRemoved(t.invoices, t.nextInvoice, Invoice(f, None, true));
    AddedAndRemoved(t.lines, t.nextInvoice, []);
  }

  lemma AddedAndRemoved<K, V>(m: map<K, V>, k: K, v: V)
    requires k !in m
    ensures m[k := v] - {k} == m
  {
  }

  /** A rejected `create` leaves everything as it was (it only spends an id). */
  lemma CreateKeepsGood(t: Tables, f: Fiscal, d: Option<Destination>, link: Option<Id>, sync: bool)
    requires Good(t)
    requires link.Some? ==> !InALine(t, link.value)
    ensures var s := Create(t, f, d, link, sync);
      && Good(s.tables)
      && (s.outcome.Rejected? ==> s.tables == t.(nextInvoice := s.tables.nextInvoice))
  {
    if !Taken(t, f, None) && !(link.Some? && d.Some?) {
      SavedIsGood(t, f);
      if link.Some? {
        SavedClaimsNothing(t, f, link.value);
      }
      PlacingKeepsGood(Saved(t, f), t.nextInvoice, d, link, sync);
      DeletedUndoesSaved(t, f);
      LaterIdsKeepGood(t, t.nextInvoice + 1);
    }
  }

  lemma LaterIdsKeepGood(t: Tables, next: Id)
    requires Good(t) && t.nextInvoice <= next
    ensures Good(t.(nextInvoice := next))
  {
    var t' := t.(nextInvoice := next);
    assert forall i, k :: ClaimAt(t', i, k) == ClaimAt(t, i, k);
    forall i | i in t.invoices
      ensures InvoiceBalanced(t', i)
    {
      BalanceIsLocal(t, t', i);
    }
  }

  lemma RecordKeepsGood(t: Tables, e: Expense)
    requires Good(t)
    ensures Good(RecordExpense(t, e).tables)
  {
    var t' := RecordExpense(t, e).tables;
    NotYetClaimed(t);
    assert forall i, k :: ClaimAt(t', i, k) == ClaimAt(t, i, k);
    forall i | i in t.invoices
      ensures InvoiceBalanced(t', i)
    {
      BalanceIsLocal(t, t', i);
    }
  }

  /** Born of the invoice: the expense of one of its lines, or a single expense that is not linked. */
  ghost predicate BornOf(t: Tables, id: Id, e: Id) {
    id in t.invoices && exists k :: ClaimAt(t, id, k) == Some(e) && (k >= 0 || t.invoices[id].owned)
  }

  /** `remove` deletes the expenses born of the invoice and no other: a linked expense stays as it was. */
  lemma RemoveDeletesTheBorn(t: Tables, id: Id, e: Id)
    requires Good(t) && e in t.expenses
    ensures var after := Remove(t, id).tables.expenses;
      && (e in after <==> !BornOf(t, id, e))
      && (e in after ==> after[e] == t.expenses[e])
  {
    if id in t.invoices {
      assert InvoiceBalanced(t, id);
      if t.lines[id] != [] {
        if e in LineExpenses(t.lines[id]) {
          var k :| 0 <= k < |t.lines[id]| && t.lines[id][k].expense == Some(e);
          assert ClaimAt(t, id, k) == Some(e);
        }
      } else if t.invoices[id].expense == Some(e) {
        assert ClaimAt(t, id, -1) == Some(e);
      }
    }
  }

  lemma RemoveLeavesGood(t: Tables, id: Id)
    requires Good(t)
    ensures Good(Remove(t, id).tables)
  {
    var t' := Remove(t, id).tables;
    if id in t.invoices {
      assert forall i, k :: ClaimAt(t', i, k) == if i == id then None else ClaimAt(t, i, k);
      forall i, k | ClaimAt(t', i, k).Some?
        ensures ClaimAt(t', i, k).value in t'.expenses
      {
        var e := ClaimAt(t, i, k).value;
        assert ClaimAt(t, i, k) == ClaimAt(t', i, k);
        RemoveDeletesTheBorn(t, id, e);
      }
      forall i | i in t'.invoices
        ensures InvoiceBalanced(t', i)
      {
        BalanceIsLocal(t, t', i);
      }
    }
  }

  lemma RemoveKeepsGood(t: Tables, id: Id)
    requires Good(t)
    ensures Good(Remove(t, id).tables)
    ensures forall e :: e in t.expenses ==>
      var after := Remove(t, id).tables.expenses;
      (e in after <==> !BornOf(t, id, e)) && (e in after ==> after[e] == t.expenses[e])
  {
    RemoveLeavesGood(t, id);
    forall e | e in t.expenses
      ensures e in Remove(t, id).tables.expenses <==> !BornOf(t, id, e)
      ensures e in Remove(t, id).tables.expenses ==> Remove(t, id).tables.expenses[e] == t.expenses[e]
    {
      RemoveDeletesTheBorn(t, id, e);
    }
  }

  /** Registering an invoice with its expense and removing it leaves every expense as before. */
  lemma RemoveUndoesCreate(t: Tables, f: Fiscal, d: Option<Destination>)
    requires Good(t) && Create(t, f, d, None, false).outcome.Done?
    ensures var r := Remove(Create(t, f, d, None, false).tables, t.nextInvoice);
      r.outcome.Done? && r.tables.invoices == t.invoices && r.tables.lines == t.lines && r.tables.expenses == t.expenses
  {
    DeletedUndoesSaved(t, f);
    if d.Some? {
      BornAndRemoved(t, f, d.value);
    }
  }

  lemma BornAndRemoved(t: Tables, f: Fiscal, d: Destination)
    requires Good(t) && ProjectExists(t, d)
    ensures var r := Remove(ApplyDestination(Saved(t, f), t.nextInvoice, Some(d)).tables, t.nextInvoice);
      r.outcome.Done? && r.tables.invoices == t.invoices && r.tables.lines == t.lines && r.tables.expenses == t.expenses
  {
    var id, t1 := t.nextInvoice, Saved(t, f);
    var t2 := ApplyDestination(t1, id, Some(d)).tables;
    assert t2.invoices[id] == Invoice(f, Some(t.nextExpense), true);
    assert t2.lines[id] == [];
    assert t2.invoices - {id} == t.invoices;
    assert t2.lines - {id} == t.lines;
    assert t2.expenses - {t.nextExpense} == t.expenses;
  }

  lemma {:induction false} AssignKeepsGood(t: Tables, ids: seq<Id>, d: Destination)
    requires Good(t)
    ensures Good(Assign(t, ids, d))
  {
    if ids != [] {
      var before := Assign(t, ids[..|ids| - 1], d);
      var id := ids[|ids| - 1];
      AssignKeepsGood(t, ids[..|ids| - 1], d);
      if id in before.invoices {
        BalancedIsShaped(before, id);
        ApplyDestinationKeepsGood(before, id, Some(d));
      }
    }
  }

  // ---------------------------------------------------------------- whole runs

  datatype Operation =
    | OpRecord(expense: Expense)
    | OpCreate(fiscal: Fiscal, destination: Option<Destination>, link: Option<Id>, sync: bool)
    | OpUpdate(invoice: Id, fiscal: Fiscal, destination: Option<Destination>)
    | OpAssign(ids: seq<Id>, to: Destination)
    | OpLink(invoice: Id, linked: Id, sync: bool)
    | OpUnlink(invoice: Id)
    | OpSetSplits(invoice: Id, split: seq<SplitLine>)
    | OpRemove(invoice: Id)

  function Execute(t: Tables, op: Operation): Tables {
    match op
    case OpRecord(e) => RecordExpense(t, e).tables
    case OpCreate(f, d, link, sync) => Create(t, f, d, link, sync).tables
    case OpUpdate(id, f, d) => Update(t, id, f, d).tables
    case OpAssign(ids, d) => Assign(t, ids, d)
    case OpLink(id, e, sync) => LinkExpense(t, id, e, sync).tables
    case OpUnlink(id) => UnlinkExpense(t, id).tables
    case OpSetSplits(id, lines) => SetSplits(t, id, lines).tables
    case OpRemove(id) => Remove(t, id).tables
  }

  /**
   * What the callers keep to: they link only expenses that `unlinkedExpenses` offers, and make no update that leaves
   * the expenses of its invoice behind. Every other call is free.
   */
  predicate Offered(t: Tables, op: Operation) {
    match op
    case OpCreate(_, _, link, _) => link.Some? ==> !InALine(t, link.value)
    case OpLink(_, e, _) => !InALine(t, e)
    case OpUpdate(id, f, d) => !LeavesExpensesBehind(t, id, f, d)
    case _ => true
  }

  lemma ExecuteKeepsGood(t: Tables, op: Operation)
    requires Good(t) && Offered(t, op)
    ensures Good(Execute(t, op))
  {
    match op
    case OpRecord(e) => RecordKeepsGood(t, e);
    case OpCreate(f, d, link, sync) => CreateKeepsGood(t, f, d, link, sync);
    case OpUpdate(id, f, d) => UpdateKeepsGood(t, id, f, d);
    case OpAssign(ids, d) => AssignKeepsGood(t, ids, d);
    case OpLink(id, e, sync) => LinkKeepsGood(t, id, e, sync);
    case OpUnlink(id) => UnlinkKeepsGood(t, id);
    case OpSetSplits(id, lines) =>
      if id in t.invoices {
        BalancedIsShaped(t, id);
        SplitsKeepGood(t, id, lines);
      }
    case OpRemove(id) => RemoveKeepsGood(t, id);
  }

  function Run(t: Tables, ops: seq<Operation>): Tables
    decreases ops
  {
    if ops == [] then t else Run(Execute(t, ops[0]), ops[1..])
  }

  predicate OfferedRun(t: Tables, ops: seq<Operation>)
    decreases ops
  {
    ops == [] || (Offered(t, ops[0]) && OfferedRun(Execute(t, ops[0]), ops[1..]))
  }

  function Empty(projects: set<nat>): Tables {
    Tables(map[], map[], map[], projects, 0, 0)
  }

  /** Every state of every run from an empty ledger is sound and balanced. */
  lemma {:induction false} RunsStayGood(t: Tables, ops: seq<Operation>)
    requires Good(t) && OfferedRun(t, ops)
    ensures Good(Run(t, ops))
    decreases ops
  {
    if ops != [] {
      ExecuteKeepsGood(t, ops[0]);
      RunsStayGood(Execute(t, ops[0]), ops[1..]);
    }
  }

  lemma EveryRunIsGood(projects: set<nat>, ops: seq<Operation>)
    requires OfferedRun(Empty(projects), ops)
    ensures Good(Run(Empty(projects), ops))
  {
    RunsStayGood(Empty(projects), ops);
  }

  // ---------------------------------------------------------------- conservation of money

  /** The amounts of the expenses of a divided invoice, line by line. */
  function ExpenseAmounts(t: Tables, ls: seq<Line>): seq<int> {
    seq(|ls|, k requires 0 <= k < |ls| =>
      if ls[k].expense.Some? && ls[k].expense.value in t.expenses then t.expenses[ls[k].expense.value].amount else 0)
  }

  /** In a good ledger the expenses of an invoice cost exactly what the invoice says, to the cent. */
  lemma ExpensesCostTheInvoice(t: Tables, id: Id)
    requires Good(t) && id in t.invoices && HasOwnExpenses(t, id)
    ensures t.lines[id] != [] ==> Sum(ExpenseAmounts(t, t.lines[id])) == t.invoices[id].fiscal.Total()
    ensures t.lines[id] == [] ==> t.expenses[t.invoices[id].expense.value].amount == t.invoices[id].fiscal.Total()
  {
    var ls := t.lines[id];
    assert InvoiceBalanced(t, id);
    if ls != [] {
      forall k | 0 <= k < |ls|
        ensures ExpenseAmounts(t, ls)[k] == LineAmounts(ls)[k]
      {
        assert LineBalanced(t, ls[k], t.invoices[id].fiscal);
      }
      assert ExpenseAmounts(t, ls) == LineAmounts(ls);
    }
  }
}
