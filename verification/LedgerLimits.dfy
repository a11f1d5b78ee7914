/**
 * How far the ledger's promises reach: what survives even the updates that fail half way, and concrete ledgers on
 * which a promise does not hold.
 */
module LedgerLimits {
  import opened Wrappers
  import opened InvoiceSplit
  import opened InvoiceLedger
  import opened LedgerDivision
  import opened LedgerProperties

  // ---------------------------------------------------------------- sound in every run

  lemma SplitsKeepSound(t: Tables, id: Id, rawLines: seq<SplitLine>)
    requires Sound(t) && id in t.invoices
    ensures Sound(ApplySplits(t, id, rawLines).tables)
  {
    SplitsAccepted(t, id, rawLines);
    if Divisible(t, id, rawLines) {
      MergedIsDistinct(rawLines);
      MergedEmpty(rawLines);
      MergedProjects(t, rawLines);
      DividedKeepsSound(t, id, Merged(rawLines));
    }
  }

  lemma SyncKeepsSound(t: Tables, id: Id)
    requires Sound(t) && id in t.invoices
    ensures var ls := t.lines[id];
      Sound(t.(expenses := SyncedLines(t.expenses, t.invoices[id].fiscal, ls, |ls| > 1)))
  {
    var ls, f := t.lines[id], t.invoices[id].fiscal;
    var expenses := SyncedLines(t.expenses, f, ls, |ls| > 1);
    LinesClaimDistinctly(t, id);
    SyncedLinesEffect(t.expenses, f, ls, |ls| > 1);
    forall e | e in expenses
      ensures ProjectExists(t, expenses[e].destination)
    {
      if k :| 0 <= k < |ls| && ls[k].expense == Some(e) {
      }
    }
    RewritingKeepsSound(t, expenses);
  }

  lemma ApplyDestinationKeepsSound(t: Tables, id: Id, d: Option<Destination>)
    requires Sound(t) && id in t.invoices
    ensures Sound(ApplyDestination(t, id, d).tables)
    ensures ApplyDestination(t, id, d).outcome.Rejected? ==> ApplyDestination(t, id, d).tables == t
  {
    var invoice := t.invoices[id];
    if t.lines[id] != [] {
      if d.Some? {
        SplitsAccepted(t, id, [SplitLine(d.value, invoice.fiscal.Total(), None)]);
        SplitsKeepSound(t, id, [SplitLine(d.value, invoice.fiscal.Total(), None)]);
      } else {
        SyncKeepsSound(t, id);
      }
    } else if invoice.expense.Some? {
      var payload := if invoice.owned then Some(ExpensePayload(invoice.fiscal)) else None;
      UpdateExpenseKeepsSound(t, invoice.expense.value, payload, d);
    } else if d.Some? && ProjectExists(t, d.value) {
      NotYetClaimed(t);
      NewClaimKeepsSound(t, ApplyDestination(t, id, d).tables, id, t.nextExpense);
    }
  }

  lemma UpdateKeepsSound(t: Tables, id: Id, f: Fiscal, d: Option<Destination>)
    requires Sound(t)
    ensures Sound(Update(t, id, f, d).tables)
  {
    if UpdateChecked(t, id, f) {
      RefiscalledIsSound(t, id, f);
      ApplyDestinationKeepsSound(Refiscalled(t, id, f), id, d);
    }
  }

  lemma CreateKeepsSound(t: Tables, f: Fiscal, d: Option<Destination>, link: Option<Id>, sync: bool)
    requires Sound(t)
    requires link.Some? ==> !InALine(t, link.value)
    ensures Sound(Create(t, f, d, link, sync).tables)
  {
    if !Taken(t, f, None) && !(link.Some? && d.Some?) {
      var t1 := Saved(t, f);
      SavedIsSound(t, f);
      if link.Some? {
        SavedClaimsNothing(t, f, link.value);
        LinkKeepsSound(t1, t.nextInvoice, link.value, sync);
      } else {
        ApplyDestinationKeepsSound(t1, t.nextInvoice, d);
      }
      DeletedSavedIsSound(t, f);
    }
  }

  lemma CreateIsSoundOffTheLines(t: Tables, f: Fiscal, d: Option<Destination>, link: Option<Id>, sync: bool)
    requires Sound(t)
    ensures var s := Create(t, f, d, link, sync);
      Sound(s.tables) <==> s.outcome.Rejected? || link.None? || !InALine(t, link.value)
  {
    if link.None? || !InALine(t, link.value) {
      CreateKeepsSound(t, f, d, link, sync);
    } else if !Taken(t, f, None) && d.None? {
      var t1 := Saved(t, f);
      SavedIsSound(t, f);
      SavedKeepsLines(t, f, link.value);
      LinkIsSoundOffTheLines(t1, t.nextInvoice, link.value, sync);
      RejectedLinkChangesNothing(t1, t.nextInvoice, link.value, sync);
      DeletedSavedIsSound(t, f);
    }
  }

  lemma RejectedLinkChangesNothing(t: Tables, id: Id, e: Id, sync: bool)
    ensures LinkExpense(t, id, e, sync).outcome.Rejected? ==> LinkExpense(t, id, e, sync).tables == t
  {
  }

  lemma SavedKeepsLines(t: Tables, f: Fiscal, e: Id)
    requires Sound(t) && InALine(t, e)
    ensures InALine(Saved(t, f), e)
  {
    var i :| i in t.lines && exists l :: l in t.lines[i] && l.expense == Some(e);
    assert i in Saved(t, f).lines && Saved(t, f).lines[i] == t.lines[i];
  }

  lemma DeletedSavedIsSound(t: Tables, f: Fiscal)
    requires Sound(t)
    ensures Sound(Deleted(Saved(t, f), t.nextInvoice))
  {
    var t' := Deleted(Saved(t, f), t.nextInvoice);
    assert t'.invoices == t.invoices && t'.lines == t.lines;
    assert forall i, k :: ClaimAt(t', i, k) == ClaimAt(t, i, k);
  }

  lemma RecordKeepsSound(t: Tables, e: Expense)
    requires Sound(t)
    ensures Sound(RecordExpense(t, e).tables)
  {
    assert forall i, k :: ClaimAt(RecordExpense(t, e).tables, i, k) == ClaimAt(t, i, k);
  }

  /** What `remove` deletes was claimed by the removed invoice, so nobody else loses an expense. */
  lemma RemoveKeepsSound(t: Tables, id: Id)
    requires Sound(t)
    ensures Sound(Remove(t, id).tables)
  {
    var t' := Remove(t, id).tables;
    if id in t.invoices {
      assert forall i, k :: ClaimAt(t', i, k) == if i == id then None else ClaimAt(t, i, k);
      forall e | e in t.expenses && e !in t'.expenses
        ensures exists k :: ClaimAt(t, id, k) == Some(e)
      {
        if t.lines[id] != [] {
          var k :| 0 <= k < |t.lines[id]| && t.lines[id][k].expense == Some(e);
          assert ClaimAt(t, id, k) == Some(e);
        } else {
          assert ClaimAt(t, id, -1) == Some(e);
        }
      }
      forall i, k | ClaimAt(t', i, k).Some?
        ensures ClaimAt(t', i, k).value in t'.expenses
      {
        assert ClaimAt(t, i, k) == ClaimAt(t', i, k);
      }
    }
  }

  lemma {:induction false} AssignKeepsSound(t: Tables, ids: seq<Id>, d: Destination)
    requires Sound(t)
    ensures Sound(Assign(t, ids, d))
  {
    if ids != [] {
      AssignKeepsSound(t, ids[..|ids| - 1], d);
      var before, id := Assign(t, ids[..|ids| - 1], d), ids[|ids| - 1];
      if id in before.invoices {
        ApplyDestinationKeepsSound(before, id, Some(d));
      }
    }
  }

  /** The only discipline soundness needs: link nothing that is already the expense of a line. */
  predicate LinksOnlyFree(t: Tables, op: Operation) {
    match op
    case OpCreate(_, _, link, _) => link.Some? ==> !InALine(t, link.value)
    case OpLink(_, e, _) => !InALine(t, e)
    case _ => true
  }

  predicate LinksOnlyFreeRun(t: Tables, ops: seq<Operation>)
    decreases ops
  {
    ops == [] || (LinksOnlyFree(t, ops[0]) && LinksOnlyFreeRun(Execute(t, ops[0]), ops[1..]))
  }

  lemma ExecuteKeepsSound(t: Tables, op: Operation)
    requires Sound(t) && LinksOnlyFree(t, op)
    ensures Sound(Execute(t, op))
  {
    match op
    case OpRecord(e) => RecordKeepsSound(t, e);
    case OpCreate(f, d, link, sync) => CreateKeepsSound(t, f, d, link, sync);
    case OpUpdate(id, f, d) => UpdateKeepsSound(t, id, f, d);
    case OpAssign(ids, d) => AssignKeepsSound(t, ids, d);
    case OpLink(id, e, sync) => LinkKeepsSound(t, id, e, sync);
    case OpUnlink(id) => UnlinkKeepsSound(t, id);
    case OpSetSplits(id, lines) =>
      if id in t.invoices {
        SplitsKeepSound(t, id, lines);
      }
    case OpRemove(id) => RemoveKeepsSound(t, id);
  }

  /** A link, on its own or of a new invoice, that is accepted and takes the expense of a line. */
  predicate LinksALine(t: Tables, op: Operation) {
    match op
    case OpCreate(f, d, link, sync) =>
      link.Some? && InALine(t, link.value) && Create(t, f, d, link, sync).outcome.Done?
    case OpLink(id, e, sync) => InALine(t, e) && LinkExpense(t, id, e, sync).outcome.Done?
    case _ => false
  }

  /** An operation keeps sound tables sound exactly when it does not take the expense of a line. */
  lemma ExecuteIsSoundOffTheLines(t: Tables, op: Operation)
    requires Sound(t)
    ensures Sound(Execute(t, op)) <==> !LinksALine(t, op)
  {
    match op
    case OpCreate(f, d, link, sync) => CreateIsSoundOffTheLines(t, f, d, link, sync);
    case OpLink(id, e, sync) => LinkIsSoundOffTheLines(t, id, e, sync);
    case _ => ExecuteKeepsSound(t, op);
  }

  /** No expense is ever claimed twice, whatever updates fail half way along the run. */
  lemma {:induction false} RunsStaySound(t: Tables, ops: seq<Operation>)
    requires Sound(t) && LinksOnlyFreeRun(t, ops)
    ensures Sound(Run(t, ops))
    decreases ops
  {
    if ops != [] {
      ExecuteKeepsSound(t, ops[0]);
      RunsStaySound(Execute(t, ops[0]), ops[1..]);
    }
  }

  // ---------------------------------------------------------------- one line against one destination

  /**
   * Splitting into a single line and assigning that destination end in the same ledger exactly when the invoice's
   * expense, if it has one, is already there: `assign` moves the expense, a one-line split replaces it.
   */
  lemma OneLineAgainstAssign(t: Tables, id: Id, d: Destination)
    requires Good(t) && id in t.invoices && t.lines[id] == [] && t.invoices[id].owned && ProjectExists(t, d)
    ensures var single := t.invoices[id].expense;
      SetSplits(t, id, [SplitLine(d, t.invoices[id].fiscal.Total(), None)]).tables ==
        ApplyDestination(t, id, Some(d)).tables
      <==> (single.Some? ==> t.expenses[single.value].destination == d)
  {
    OneLineIsDivided(t, id, d);
    if t.invoices[id].expense.Some? {
      assert ClaimAt(t, id, -1) == t.invoices[id].expense;
      if t.expenses[t.invoices[id].expense.value].destination == d {
        OneLineInPlace(t, id, d);
      } else {
        OneLineReplaces(t, id, d);
      }
    } else {
      OneLineIsBorn(t, id, d);
    }
  }

  /** The expense of a single line without a note is the single expense the invoice would have. */
  lemma OneLinePayload(f: Fiscal)
    ensures SplitPayload(f, f.Total(), None, false) == ExpensePayload(f)
  {
    assert [Reference(f.ncf)] + [] + Remarks(f.notes) == [Reference(f.ncf)] + Remarks(f.notes);
  }

  function WholeLine(t: Tables, id: Id, d: Destination): SplitLine
    requires id in t.invoices
  {
    SplitLine(d, t.invoices[id].fiscal.Total(), None)
  }

  lemma OneLineIsDivided(t: Tables, id: Id, d: Destination)
    requires Good(t) && id in t.invoices && t.invoices[id].owned && ProjectExists(t, d)
    ensures SetSplits(t, id, [WholeLine(t, id, d)]).tables == Divided(t, id, [WholeLine(t, id, d)])
  {
    var line := WholeLine(t, id, d);
    assert Amounts([line]) == [line.amount] && Sum([line.amount]) == line.amount;
    SplitsAccepted(t, id, [line]);
    MergedFixpoint([line]);
  }

  lemma OneLineIds(t: Tables, id: Id, line: SplitLine)
    requires id in t.invoices && id in t.lines
    ensures LineIds(Held(t, id), [line], t.nextExpense) ==
      [if ReuseOf(Held(t, id), line.destination).Some? then ReuseOf(Held(t, id), line.destination).value
        else t.nextExpense]
    ensures FreshCount(Held(t, id), [line]) == if ReuseOf(Held(t, id), line.destination).Some? then 0 else 1
  {
    assert [line][..0] == [] && [line][0] == line;
  }

  lemma OneLineInPlace(t: Tables, id: Id, d: Destination)
    requires Good(t) && id in t.invoices && t.lines[id] == [] && t.invoices[id].owned && ProjectExists(t, d)
    requires t.invoices[id].expense.Some? && t.invoices[id].expense.value in t.expenses
    requires t.expenses[t.invoices[id].expense.value].destination == d
    ensures Divided(t, id, [WholeLine(t, id, d)]) == ApplyDestination(t, id, Some(d)).tables
  {
    var e, line := t.invoices[id].expense.value, WholeLine(t, id, d);
    assert InvoiceBalanced(t, id);
    assert Held(t, id) == [Holding(d, e)];
    OneLineIds(t, id, line);
    var t' := Divided(t, id, [line]);
    DividedLine(t, id, [line], 0);
    OneLinePayload(t.invoices[id].fiscal);
    assert t'.expenses == t.expenses[e := t'.expenses[e]];
    assert t'.invoices == t.invoices;
    assert t'.lines == t.lines;
  }

  lemma OneLineReplaces(t: Tables, id: Id, d: Destination)
    requires Good(t) && id in t.invoices && t.lines[id] == [] && t.invoices[id].owned && ProjectExists(t, d)
    requires t.invoices[id].expense.Some? && t.invoices[id].expense.value in t.expenses
    requires t.expenses[t.invoices[id].expense.value].destination != d
    ensures t.invoices[id].expense.value !in Divided(t, id, [WholeLine(t, id, d)]).expenses
    ensures t.invoices[id].expense.value in ApplyDestination(t, id, Some(d)).tables.expenses
  {
    NotReused(t, id, WholeLine(t, id, d), t.invoices[id].expense.value);
    MovedStays(t, id, d);
  }

  lemma MovedStays(t: Tables, id: Id, d: Destination)
    requires id in t.invoices && id in t.lines && t.lines[id] == [] && t.invoices[id].owned
    requires t.invoices[id].expense.Some? && t.invoices[id].expense.value in t.expenses
    ensures t.invoices[id].expense.value in ApplyDestination(t, id, Some(d)).tables.expenses
  {
  }

  lemma NotReused(t: Tables, id: Id, line: SplitLine, e: Id)
    requires id in t.invoices && id in t.lines && t.lines[id] == [] && t.invoices[id].expense == Some(e)
    requires e < t.nextExpense && e in t.expenses && t.expenses[e].destination != line.destination
    ensures e !in Divided(t, id, [line]).expenses
  {
    assert Held(t, id) == [Holding(t.expenses[e].destination, e)];
    assert Held(t, id)[0].expense in HeldIds(Held(t, id));
    OneLineIds(t, id, line);
    ReuseIsHeld(Held(t, id), line.destination);
    assert LineIds(Held(t, id), [line], t.nextExpense) == [t.nextExpense];
  }

  lemma OneLineIsBorn(t: Tables, id: Id, d: Destination)
    requires id in t.invoices && id in t.lines && t.lines[id] == [] && t.invoices[id].owned && ProjectExists(t, d)
    requires t.invoices[id].expense.None? && t.nextExpense !in t.expenses
    ensures Divided(t, id, [WholeLine(t, id, d)]) == ApplyDestination(t, id, Some(d)).tables
  {
    var line := WholeLine(t, id, d);
    var f := t.invoices[id].fiscal;
    assert Held(t, id) == [];
    OneLineIds(t, id, line);
    OneLinePayload(f);
    assert HeldIds([]) == {};
    NothingDropped(t.expenses, t.nextExpense, f, line);
    assert t.lines[id := []] == t.lines;
  }

  lemma NothingDropped(expenses: map<Id, Expense>, e: Id, f: Fiscal, line: SplitLine)
    ensures Recharged(expenses, {}, [e], f, [line]) == expenses[e := Charged(expenses, e, f, line, false)]
  {
    assert IndexOf([e], e) == 0;
  }

  // ---------------------------------------------------------------- ledgers on which a promise fails

  const INVOICE := Fiscal("130991873", "FERRETERIA UNO SRL", "B0100000001", "09", "2026-10-05", "", 1000, 180, 0, 0, 0)

  const OTHER := Fiscal("130991873", "FERRETERIA UNO SRL", "B0100000002", "09", "2026-10-06", "", 600, 0, 0, 0, 0)

  /** One invoice with its expense in project 1. */
  function OneInvoice(): Tables {
    var p := ExpensePayload(INVOICE);
    Tables(map[0 := Invoice(INVOICE, Some(0), true)], map[0 := []],
           map[0 := Expense(Project(1), p.amount, p.facts, p.notes, None)], {1}, 1, 1)
  }

  lemma OneInvoiceIsGood()
    ensures Good(OneInvoice())
  {
    var t := OneInvoice();
    assert t.lines.Keys == {0} == t.invoices.Keys;
  }

  /** Doubling the base while naming a project that does not exist: the invoice says 2180, its expense still 1180. */
  lemma UpdateCanLeaveTheExpenseBehind()
    ensures Good(OneInvoice())
    ensures var s := Update(OneInvoice(), 0, INVOICE.(base := 2000), Some(Project(99)));
      && s.outcome == Rejected(BadRequest)
      && 0 in s.tables.invoices && s.tables.invoices[0].fiscal.Total() == 2180
      && 0 in s.tables.expenses && s.tables.expenses[0].amount == 1180
  {
    OneInvoiceIsGood();
  }

  /** Invoice 0 divided into two lines, and invoice 1 with no expense yet. */
  function DividedAndFree(): Tables {
    Tables(map[0 := Invoice(INVOICE, None, true), 1 := Invoice(OTHER, None, true)],
           map[0 := [Line(General, 180, None, Some(0)), Line(Project(1), 1000, None, Some(1))], 1 := []],
           map[0 := Expense(General, 180, FactsOf(INVOICE), [], None),
               1 := Expense(Project(1), 1000, FactsOf(INVOICE), [], None)],
           {1}, 2, 2)
  }

  lemma DividedAndFreeIsGood()
    ensures Good(DividedAndFree())
  {
    DividedAndFreeIsSound();
    DividedAndFreeIsBalanced();
  }

  lemma DividedAndFreeIsSound()
    ensures Sound(DividedAndFree())
  {
    var t := DividedAndFree();
    assert t.lines.Keys == {0, 1} == t.invoices.Keys;
    assert forall i, k ::
      ClaimAt(t, i, k) == if i == 0 && k == 0 then Some(0) else if i == 0 && k == 1 then Some(1) else None;
  }

  lemma DividedAndFreeIsBalanced()
    ensures DividedAndFree().lines.Keys == DividedAndFree().invoices.Keys
    ensures Balanced(DividedAndFree())
  {
    var t := DividedAndFree();
    assert t.lines.Keys == {0, 1} == t.invoices.Keys;
    assert LineAmounts(t.lines[0]) == [180, 1000];
    assert [180, 1000][..1] == [180];
    assert Sum([180, 1000]) == 1180;
    assert InvoiceBalanced(t, 0);
    assert InvoiceBalanced(t, 1);
  }

  /** Why links must come from the expenses offered: linking the expense of a line is accepted, and counted twice. */
  lemma LinkCanClaimALine()
    ensures Good(DividedAndFree())
    ensures var s := LinkExpense(DividedAndFree(), 1, 0, false);
      s.outcome.Done? && ClaimAt(s.tables, 1, -1) == Some(0) == ClaimAt(s.tables, 0, 0)
  {
    DividedAndFreeIsGood();
    var t := DividedAndFree();
    assert t.lines[0][0].expense == Some(0);
  }

  /**
   * Linking with `syncExpense` gives the expense the amount of the invoice exactly when it has no quantity and unit
   * price of its own, or these already multiply to it: the breakdown always decides the amount.
   */
  lemma SyncedLinkAmount(t: Tables, id: Id, e: Id)
    requires LinkExpense(t, id, e, true).outcome.Done?
    ensures var before := t.expenses[e];
      var after := LinkExpense(t, id, e, true).tables.expenses[e];
      && after.facts == FactsOf(t.invoices[id].fiscal)
      && after.destination == before.destination
      && (after.amount == t.invoices[id].fiscal.Total() <==>
            before.breakdown.None? || ComputeAmount(before) == t.invoices[id].fiscal.Total())
  {
  }

  // ---------------------------------------------------------------- exactly which runs stay good

  /** What no caller may do: take the expense of a line, or leave the expenses of an invoice behind. */
  predicate Careless(t: Tables, op: Operation) {
    LinksALine(t, op) || (op.OpUpdate? && LeavesExpensesBehind(t, op.invoice, op.fiscal, op.destination))
  }

  lemma RejectedCreateIsGood(t: Tables, f: Fiscal, d: Option<Destination>, link: Option<Id>, sync: bool)
    requires Good(t) && link.Some? && Create(t, f, d, link, sync).outcome.Rejected?
    ensures Good(Create(t, f, d, link, sync).tables)
  {
    if !Taken(t, f, None) && d.None? {
      RejectedLinkChangesNothing(Saved(t, f), t.nextInvoice, link.value, sync);
      DeletedUndoesSaved(t, f);
      LaterIdsKeepGood(t, t.nextInvoice + 1);
    }
  }

  lemma ExecuteIsGoodUnlessCareless(t: Tables, op: Operation)
    requires Good(t)
    ensures Good(Execute(t, op)) <==> !Careless(t, op)
  {
    if LinksALine(t, op) {
      ExecuteIsSoundOffTheLines(t, op);
    } else {
      match op
      case OpCreate(f, d, link, sync) =>
        if link.Some? && InALine(t, link.value) {
          RejectedCreateIsGood(t, f, d, link, sync);
        } else {
          CreateKeepsGood(t, f, d, link, sync);
        }
      case OpLink(id, e, sync) =>
        RejectedLinkChangesNothing(t, id, e, sync);
        LinkKeepsGood(t, id, e, sync);
      case OpUpdate(id, f, d) => UpdateKeepsGood(t, id, f, d);
      case _ => ExecuteKeepsGood(t, op);
    }
  }

  ghost predicate AlwaysGood(t: Tables, ops: seq<Operation>)
    decreases ops
  {
    Good(t) && (ops == [] || AlwaysGood(Execute(t, ops[0]), ops[1..]))
  }

  predicate NeverCareless(t: Tables, ops: seq<Operation>)
    decreases ops
  {
    ops == [] || (!Careless(t, ops[0]) && NeverCareless(Execute(t, ops[0]), ops[1..]))
  }

  lemma {:induction false} GoodAlongTheRun(t: Tables, ops: seq<Operation>)
    requires Good(t)
    ensures AlwaysGood(t, ops) <==> NeverCareless(t, ops)
    decreases ops
  {
    if ops != [] {
      ExecuteIsGoodUnlessCareless(t, ops[0]);
      if Good(Execute(t, ops[0])) {
        GoodAlongTheRun(Execute(t, ops[0]), ops[1..]);
      } else {
        assert !AlwaysGood(Execute(t, ops[0]), ops[1..]);
      }
    }
  }

  /**
   * From an empty ledger, a run keeps it sound and balanced throughout exactly when no link takes the expense of a line
   * and no update leaves expenses behind.
   */
  lemma GoodExactlyWhenNeverCareless(projects: set<nat>, ops: seq<Operation>)
    ensures AlwaysGood(Empty(projects), ops) <==> NeverCareless(Empty(projects), ops)
  {
    GoodAlongTheRun(Empty(projects), ops);
  }

  /** An undivided invoice of 1180 cents and an expense typed as one unit at 10.00. */
  function TypedByTheUnit(): Tables {
    var typed := Expense(General, 1000, Facts("", "", "", Other, ""), [], Some(Breakdown(10000, 100000)));
    Tables(map[0 := Invoice(Fiscal("1", "S", "A", "09", "2024-01-01", "", 1000, 180, 0, 0, 0), None, true)],
           map[0 := []], map[0 := typed], {}, 1, 1)
  }

  /** A balanced ledger in which the synced link is accepted and the expense goes on saying 1000. */
  lemma SyncedLinkCanMissTheAmount()
    ensures Good(TypedByTheUnit())
    ensures var s := LinkExpense(TypedByTheUnit(), 0, 0, true);
      s.outcome.Done? && s.tables.expenses[0].amount == 1000 != TypedByTheUnit().invoices[0].fiscal.Total()
  {
    var t := TypedByTheUnit();
    assert t.lines.Keys == {0} == t.invoices.Keys;
    assert forall i, k :: ClaimAt(t, i, k) == None;
    assert InvoiceBalanced(t, 0);
    assert RoundDiv(1000000000, 1000000) == 1000;
  }
}
