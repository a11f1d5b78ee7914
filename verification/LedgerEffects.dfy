/**
 * What each operation of the ledger does, field by field
 * (stp-api/src/fiscal-invoices/fiscal-invoices.service.ts): where the expenses of an invoice end, what they say, what
 * stays as it was and what is answered.
 */
module LedgerEffects {
  import opened Wrappers
  import opened InvoiceSplit
  import opened InvoiceLedger
  import opened LedgerDivision
  import opened LedgerProperties
  import opened LedgerLimits

  // ---------------------------------------------------------------- where the expenses of an invoice are

  /** The expense is there and serves that destination. */
  predicate GoesTo(t: Tables, e: Id, d: Destination) {
    e in t.expenses && t.expenses[e].destination == d
  }

  /** The invoice has an expense, and all it has serve that destination. */
  ghost predicate AllAt(t: Tables, id: Id, d: Destination) {
    && (exists k :: ClaimAt(t, id, k).Some?)
    && forall k :: ClaimAt(t, id, k).Some? ==> GoesTo(t, ClaimAt(t, id, k).value, d)
  }

  lemma OnlyClaim(t: Tables, id: Id, d: Destination)
    requires id in t.invoices && id in t.lines && t.lines[id] == []
    requires t.invoices[id].expense.Some? && GoesTo(t, t.invoices[id].expense.value, d)
    ensures AllAt(t, id, d)
  {
    assert ClaimAt(t, id, -1).Some?;
  }

  lemma UndividedAt(t: Tables, id: Id, d: Destination)
    requires Sound(t) && id in t.invoices && t.lines[id] != []
    requires ApplyDestination(t, id, Some(d)).outcome.Done?
    ensures AllAt(ApplyDestination(t, id, Some(d)).tables, id, d)
  {
    var raw := [SplitLine(d, t.invoices[id].fiscal.Total(), None)];
    SplitsAccepted(t, id, raw);
    OneLineMerges(raw[0]);
    var lines := Merged(raw);
    var t' := Divided(t, id, lines);
    DividedIds(t, id, lines);
    DividedLine(t, id, lines, 0);
    OnlyClaim(t', id, d);
  }

  lemma OneLineMerges(line: SplitLine)
    ensures |Merged([line])| == 1 && Merged([line])[0].destination == line.destination
    ensures DistinctDestinations(Merged([line]))
  {
    assert [line][..0] == [];
    assert Destinations([line]) == [line.destination];
  }

  /** An invoice that is given a destination has an expense, and every expense it has goes there. */
  lemma DestinationIsReached(t: Tables, id: Id, d: Destination)
    requires Sound(t) && id in t.invoices && (t.lines[id] != [] ==> t.invoices[id].expense.None?)
    requires ApplyDestination(t, id, Some(d)).outcome.Done?
    ensures AllAt(ApplyDestination(t, id, Some(d)).tables, id, d)
  {
    if t.lines[id] != [] {
      UndividedAt(t, id, d);
    } else {
      OnlyClaim(ApplyDestination(t, id, Some(d)).tables, id, d);
    }
  }

  /** Without a destination the same expenses are there and none changes the one it serves. */
  lemma NoDestinationNoMove(t: Tables, id: Id)
    requires Good(t) && id in t.invoices
    ensures var s := ApplyDestination(t, id, None);
      && s.outcome.Done? && s.tables.expenses.Keys == t.expenses.Keys
      && (forall e :: e in t.expenses ==> s.tables.expenses[e].destination == t.expenses[e].destination)
      && s.tables.invoices == t.invoices && s.tables.lines == t.lines
  {
    var ls, f := t.lines[id], t.invoices[id].fiscal;
    assert InvoiceBalanced(t, id);
    if ls != [] {
      LinesClaimDistinctly(t, id);
      SyncedLinesEffect(t.expenses, f, ls, |ls| > 1);
      forall e | e in t.expenses
        ensures SyncedLines(t.expenses, f, ls, |ls| > 1)[e].destination == t.expenses[e].destination
      {
        if k :| 0 <= k < |ls| && ls[k].expense == Some(e) {
          assert LineBalanced(t, ls[k], f);
        }
      }
    }
  }

  /** An expense that was only linked keeps what it says, wherever its invoice is sent. */
  lemma LinkedKeepsItsData(t: Tables, id: Id, d: Option<Destination>)
    requires id in t.invoices && id in t.lines && t.lines[id] == []
    requires t.invoices[id].expense.Some? && !t.invoices[id].owned && t.invoices[id].expense.value in t.expenses
    requires var e := t.expenses[t.invoices[id].expense.value];
      e.amount == ComputeAmount(e)
    ensures var before := t.expenses[t.invoices[id].expense.value];
      var s := ApplyDestination(t, id, d);
      s.outcome.Done? ==>
        s.tables == t.(expenses := t.expenses[t.invoices[id].expense.value :=
          before.(destination := if d.Some? then d.value else before.destination)])
  {
    var e := t.invoices[id].expense.value;
    assert t.expenses[e := t.expenses[e]] == t.expenses;
  }

  /** An expense born of an undivided invoice says exactly what the invoice says, and is where it is sent. */
  lemma OwnedSaysItsInvoice(t: Tables, id: Id, d: Option<Destination>)
    requires Good(t) && id in t.invoices && t.lines[id] == [] && t.invoices[id].owned
    requires ApplyDestination(t, id, d).outcome.Done? && ApplyDestination(t, id, d).tables.invoices[id].expense.Some?
    ensures var t', p := ApplyDestination(t, id, d).tables, ExpensePayload(t.invoices[id].fiscal);
      var e := t'.invoices[id].expense.value;
      && (t.invoices[id].expense.None? ==> e == t.nextExpense && d.Some?)
      && (t.invoices[id].expense.Some? ==> t.invoices[id].expense == Some(e) && e in t.expenses)
      && t'.invoices == t.invoices[id := Invoice(t.invoices[id].fiscal, Some(e), true)] && t'.lines == t.lines
      && t'.expenses == t.expenses[e :=
           Expense(if d.Some? then d.value else t.expenses[e].destination, p.amount, p.facts, p.notes, None)]
  {
    assert InvoiceBalanced(t, id);
  }

  /** Without a destination, the expense of every line says what the line and the invoice say, and no other changes. */
  lemma LinesFollowTheirInvoice(t: Tables, id: Id, k: nat)
    requires Good(t) && id in t.invoices && k < |t.lines[id]|
    ensures var t', l := ApplyDestination(t, id, None).tables, t.lines[id][k];
      var p := SplitPayload(t.invoices[id].fiscal, l.amount, l.note, true);
      && l.expense.Some? && l.expense.value in t'.expenses
      && t'.expenses[l.expense.value] == Expense(l.destination, p.amount, p.facts, p.notes, None)
      && forall e :: e in t.expenses && (forall j :: 0 <= j < |t.lines[id]| ==> t.lines[id][j].expense != Some(e)) ==>
           e in t'.expenses && t'.expenses[e] == t.expenses[e]
  {
    var ls, f := t.lines[id], t.invoices[id].fiscal;
    assert InvoiceBalanced(t, id);
    assert LineBalanced(t, ls[k], f);
    LinesClaimDistinctly(t, id);
    SyncedLinesEffect(t.expenses, f, ls, |ls| > 1);
  }

  // ---------------------------------------------------------------- assigning many

  /** Giving one invoice its destination touches neither the claims of another nor the expenses it claims. */
  ghost predicate LeavesAlone(t: Tables, t': Tables, i: Id) {
    && (forall k :: ClaimAt(t', i, k) == ClaimAt(t, i, k))
    && (forall k :: ClaimAt(t, i, k).Some? && ClaimAt(t, i, k).value in t.expenses ==>
          var e := ClaimAt(t, i, k).value;
          e in t'.expenses && t'.expenses[e] == t.expenses[e])
  }

  lemma DivisionLeavesAlone(t: Tables, id: Id, lines: seq<SplitLine>, i: Id)
    requires Sound(t) && id in t.invoices && i != id && lines != [] && DistinctDestinations(lines)
    ensures LeavesAlone(t, Divided(t, id, lines), i)
  {
    forall k
      ensures ClaimAt(Divided(t, id, lines), i, k) == ClaimAt(t, i, k)
    {
      DividedClaims(t, id, lines, i, k);
    }
    forall k | ClaimAt(t, i, k).Some?
      ensures var e := ClaimAt(t, i, k).value;
        e in Divided(t, id, lines).expenses && Divided(t, id, lines).expenses[e] == t.expenses[e]
    {
      OthersAreNotHeld(t, id, i, k);
      DividedElsewhere(t, id, lines, ClaimAt(t, i, k).value);
    }
  }

  lemma DestinationLeavesAlone(t: Tables, id: Id, d: Destination, i: Id)
    requires Sound(t) && id in t.invoices && i != id
    ensures LeavesAlone(t, ApplyDestination(t, id, Some(d)).tables, i)
  {
    var invoice := t.invoices[id];
    if t.lines[id] != [] {
      var raw := [SplitLine(d, invoice.fiscal.Total(), None)];
      SplitsAccepted(t, id, raw);
      OneLineMerges(raw[0]);
      if Divisible(t, id, raw) {
        DivisionLeavesAlone(t, id, Merged(raw), i);
      }
    } else if invoice.expense.Some? {
      assert ClaimAt(t, id, -1) == invoice.expense;
    } else {
      NotYetClaimed(t);
    }
  }

  lemma StaysAt(t: Tables, t': Tables, i: Id, d: Destination)
    requires AllAt(t, i, d) && LeavesAlone(t, t', i)
    ensures AllAt(t', i, d)
  {
    var k :| ClaimAt(t, i, k).Some?;
    assert ClaimAt(t', i, k).Some?;
  }

  predicate TurnFails(t: Tables, id: Id, d: Destination) {
    !(id in t.invoices && id in t.lines && ApplyDestination(t, id, Some(d)).outcome.Done?)
  }

  lemma OneTurn(t: Tables, id: Id, d: Destination)
    requires Good(t)
    ensures TurnFails(t, id, d) <==> id !in t.invoices || !ProjectExists(t, d)
    ensures id in t.invoices ==>
      var t' := ApplyDestination(t, id, Some(d)).tables;
      t'.invoices.Keys == t.invoices.Keys && t'.projects == t.projects
  {
    if id in t.invoices {
      BalancedIsShaped(t, id);
      DestinationRejected(t, id, Some(d));
      DestinationKeepsInvoices(t, id, d);
    }
  }

  lemma LastTurn(t: Tables, ids: seq<Id>, d: Destination)
    requires Good(t) && ids != []
    ensures var n := |ids| - 1;
      var before := Assign(t, ids[..n], d);
      && AssignFailures(t, ids, d) ==
           AssignFailures(t, ids[..n], d) + (if TurnFails(before, ids[n], d) then [ids[n]] else [])
      && Assign(t, ids, d).invoices.Keys == before.invoices.Keys && Assign(t, ids, d).projects == before.projects
  {
    var n := |ids| - 1;
    AssignKeepsGood(t, ids[..n], d);
    OneTurn(Assign(t, ids[..n], d), ids[n], d);
  }

  lemma TurnReaches(t: Tables, id: Id, d: Destination)
    requires Good(t) && !TurnFails(t, id, d)
    ensures AllAt(ApplyDestination(t, id, Some(d)).tables, id, d)
  {
    assert InvoiceBalanced(t, id);
    DestinationIsReached(t, id, d);
  }

  lemma TurnKeeps(t: Tables, id: Id, d: Destination, i: Id)
    requires Good(t) && id in t.invoices && i != id && AllAt(t, i, d)
    ensures AllAt(ApplyDestination(t, id, Some(d)).tables, i, d)
  {
    DestinationLeavesAlone(t, id, d, i);
    StaysAt(t, ApplyDestination(t, id, Some(d)).tables, i, d);
  }

  /**
   * Every invoice asked for and not reported as failed ends with an expense, and with all of them at the destination.
   */
  lemma {:induction false} AssignedAreThere(t: Tables, ids: seq<Id>, d: Destination, i: Id)
    requires Good(t) && i in ids && i !in AssignFailures(t, ids, d)
    ensures AllAt(Assign(t, ids, d), i, d)
  {
    var n := |ids| - 1;
    var before, id := Assign(t, ids[..n], d), ids[n];
    AssignKeepsGood(t, ids[..n], d);
    LastTurn(t, ids, d);
    if i == id {
      TurnReaches(before, id, d);
    } else {
      assert i in ids[..n];
      AssignedAreThere(t, ids[..n], d, i);
      if id in before.invoices {
        TurnKeeps(before, id, d, i);
      }
    }
  }

  lemma {:induction false} AssignKeepsInvoices(t: Tables, ids: seq<Id>, d: Destination)
    requires Good(t)
    ensures Assign(t, ids, d).invoices.Keys == t.invoices.Keys && Assign(t, ids, d).projects == t.projects
  {
    if ids != [] {
      AssignKeepsInvoices(t, ids[..|ids| - 1], d);
      LastTurn(t, ids, d);
    }
  }

  lemma TurnFailsExactlyWhen(t: Tables, ids: seq<Id>, d: Destination, id: Id)
    requires Good(t)
    ensures TurnFails(Assign(t, ids, d), id, d) <==> id !in t.invoices || !ProjectExists(t, d)
  {
    AssignKeepsGood(t, ids, d);
    AssignKeepsInvoices(t, ids, d);
    OneTurn(Assign(t, ids, d), id, d);
    assert id in Assign(t, ids, d).invoices <==> id in t.invoices;
  }

  /** One is reported as failed exactly when it is not registered, or when the project does not exist. */
  lemma {:induction false} FailuresAreThose(t: Tables, ids: seq<Id>, d: Destination, i: Id)
    requires Good(t)
    ensures i in AssignFailures(t, ids, d) <==> i in ids && (i !in t.invoices || !ProjectExists(t, d))
  {
    if ids != [] {
      var n := |ids| - 1;
      FailuresAreThose(t, ids[..n], d, i);
      TurnFailsExactlyWhen(t, ids[..n], d, ids[n]);
      LastTurn(t, ids, d);
      OneMoreFailure(ids, AssignFailures(t, ids[..n], d), i, i !in t.invoices || !ProjectExists(t, d));
    }
  }

  lemma OneMoreFailure(ids: seq<Id>, failed: seq<Id>, i: Id, fails: bool)
    requires ids != [] && (i in failed <==> i in ids[..|ids| - 1] && fails)
    ensures i in failed || (i == ids[|ids| - 1] && fails) <==> i in ids && fails
  {
    assert ids == ids[..|ids| - 1] + [ids[|ids| - 1]];
  }

  lemma DestinationKeepsInvoices(t: Tables, id: Id, d: Destination)
    requires id in t.invoices && id in t.lines
    ensures var t' := ApplyDestination(t, id, Some(d)).tables;
      t'.invoices.Keys == t.invoices.Keys && t'.projects == t.projects
  {
  }

  // ---------------------------------------------------------------- what an expense says of its invoice

  /** The expense of an invoice costs its total and repeats its issuer, number, date, kind of expense and notes. */
  lemma WhatAnExpenseSays(f: Fiscal)
    ensures var p := ExpensePayload(f);
      && p.amount == f.base + f.itbis + f.isc + f.tip + f.otherTax
      && p.facts.rnc == f.rnc && p.facts.supplierName == f.supplierName
      && p.facts.ncf == f.ncf && p.facts.date == f.date
      && (p.facts.category == Materials <==> f.expenseType == "09")
      && (p.facts.category == Equipment <==> f.expenseType == "10")
      && (p.facts.category == Labor <==> f.expenseType == "01")
      && p.notes == if f.notes == "" then [Reference(f.ncf)] else [Reference(f.ncf), Remark(f.notes)]
  {
  }

  /**
   * The expense of one line costs the line, and its notes name the invoice, the line and the remarks, in that order.
   */
  lemma WhatALineSays(f: Fiscal, amount: int, note: Option<string>, many: bool)
    ensures var p := SplitPayload(f, amount, note, many);
      && p.amount == amount && p.facts == ExpensePayload(f).facts
      && |p.notes| == 1 + (if note.Some? && note.value != "" then 1 else 0) + (if f.notes != "" then 1 else 0)
      && p.notes[0] == (if many then PartOf(f.ncf, f.Total()) else Reference(f.ncf))
      && (note.Some? && note.value != "" ==> p.notes[1] == Remark(note.value))
      && (f.notes != "" ==> p.notes[|p.notes| - 1] == Remark(f.notes))
  {
  }

  /** With a quantity and a unit price, the amount of an expense is their product to the nearest cent. */
  lemma AmountOfABreakdown(expense: Expense, payload: Option<Payload>, d: Option<Destination>)
    ensures var after := Patched(expense, payload, d);
      && after.breakdown == expense.breakdown
      && after.destination == (if d.Some? then d.value else expense.destination)
      && (payload.Some? ==> after.facts == payload.value.facts && after.notes == payload.value.notes)
      && (payload.None? ==> after.facts == expense.facts && after.notes == expense.notes)
      && match expense.breakdown
         case None => after.amount == if payload.Some? then payload.value.amount else expense.amount
         case Some(b) =>
           var exact := b.quantity * b.unitPrice;
           -500000 <= 1000000 * after.amount - exact <= 500000
  {
  }

  /** An expense typed by hand is recorded as it was typed, under a new id, exactly when its project exists. */
  lemma RecordDoes(t: Tables, e: Expense)
    requires Sound(t)
    ensures var s := RecordExpense(t, e);
      && (s.outcome.Done? <==> ProjectExists(t, e.destination))
      && (s.outcome.Rejected? ==> s.tables == t)
      && (s.outcome.Done? ==>
            && t.nextExpense !in t.expenses
            && s.tables.expenses.Keys == t.expenses.Keys + {t.nextExpense}
            && (forall x :: x in t.expenses ==> s.tables.expenses[x] == t.expenses[x])
            && s.tables.expenses[t.nextExpense] == e.(amount := s.tables.expenses[t.nextExpense].amount)
            && (var amount := s.tables.expenses[t.nextExpense].amount;
                match e.breakdown
                case None => amount == e.amount
                case Some(b) => -500000 <= 1000000 * amount - b.quantity * b.unitPrice <= 500000)
            && s.tables.invoices == t.invoices && s.tables.lines == t.lines)
  {
  }

  // ---------------------------------------------------------------- create, update, link

  /** Nobody else has registered that document. */
  predicate NewDocument(t: Tables, f: Fiscal) {
    forall i :: i in t.invoices ==> t.invoices[i].fiscal.rnc != f.rnc || t.invoices[i].fiscal.ncf != f.ncf
  }

  /** The expense is there and is not the single expense of any invoice. */
  predicate Linkable(t: Tables, e: Id) {
    e in t.expenses && forall i :: i in t.invoices ==> t.invoices[i].expense != Some(e)
  }

  /** Registering is accepted exactly in these cases, and otherwise leaves everything as it was. */
  lemma CreateAccepted(t: Tables, f: Fiscal, d: Option<Destination>, link: Option<Id>, sync: bool)
    requires Sound(t)
    ensures var s := Create(t, f, d, link, sync);
      && (s.outcome.Done? <==>
            && NewDocument(t, f) && (link.None? || d.None?)
            && (link.Some? ==> Linkable(t, link.value)) && (d.Some? ==> ProjectExists(t, d.value)))
      && (s.outcome.Rejected? ==>
            s.tables.invoices == t.invoices && s.tables.lines == t.lines && s.tables.expenses == t.expenses)
  {
    FreshInvoiceId(t, f);
    if !Taken(t, f, None) && !(link.Some? && d.Some?) {
      AddedAndRemoved(t.invoices, t.nextInvoice, Invoice(f, None, true));
      AddedAndRemoved(t.lines, t.nextInvoice, []);
      LinkableSaved(t, f, link);
    }
  }

  lemma FreshInvoiceId(t: Tables, f: Fiscal)
    requires Sound(t)
    ensures t.nextInvoice !in t.invoices && t.nextInvoice !in t.lines
  {
  }

  lemma LinkableSaved(t: Tables, f: Fiscal, link: Option<Id>)
    requires Sound(t) && t.nextInvoice !in t.invoices
    ensures link.Some? ==> (LinkedElsewhere(Saved(t, f), link.value) <==> LinkedElsewhere(t, link.value))
  {
    if link.Some? && LinkedElsewhere(t, link.value) {
      var i :| i in t.invoices && t.invoices[i].expense == link;
      assert Saved(t, f).invoices[i] == t.invoices[i];
    }
  }

  /** What a new invoice has: the expense it was linked to, a new one of its own at the destination given, or none. */
  lemma CreateDoes(t: Tables, f: Fiscal, d: Option<Destination>, link: Option<Id>, sync: bool)
    requires Sound(t) && Create(t, f, d, link, sync).outcome.Done?
    ensures var t', id := Create(t, f, d, link, sync).tables, t.nextInvoice;
      && id !in t.invoices && t'.invoices.Keys == t.invoices.Keys + {id}
      && (forall i :: i in t.invoices ==> t'.invoices[i] == t.invoices[i] && t'.lines[i] == t.lines[i])
      && t'.invoices[id].fiscal == f && t'.lines[id] == []
      && (link.Some? ==>
            && t'.invoices[id].expense == link && !t'.invoices[id].owned
            && t'.expenses - {link.value} == t.expenses - {link.value}
            && SyncedOrKept(t, t', link.value, f, sync))
      && (d.Some? ==>
            && t'.invoices[id].expense == Some(t.nextExpense) && t'.invoices[id].owned
            && t.nextExpense !in t.expenses && t'.expenses - {t.nextExpense} == t.expenses
            && t'.expenses[t.nextExpense] ==
                 Expense(d.value, ExpensePayload(f).amount, ExpensePayload(f).facts, ExpensePayload(f).notes, None))
      && (link.None? && d.None? ==>
            t'.invoices[id].expense == None && t'.invoices[id].owned && t'.expenses == t.expenses)
  {
    var id := t.nextInvoice;
    if link.Some? {
      SyncTouchesOnly(Saved(t, f), id, link.value, sync);
    } else if d.Some? {
      AddedAndRemoved(t.expenses, t.nextExpense,
        Expense(d.value, ExpensePayload(f).amount, ExpensePayload(f).facts, ExpensePayload(f).notes, None));
    }
  }

  /** A linked expense keeps all it says, or with `sync` takes the data of the invoice and keeps its place. */
  ghost predicate SyncedOrKept(t: Tables, t': Tables, e: Id, f: Fiscal, sync: bool) {
    && e in t.expenses && e in t'.expenses
    && t'.expenses[e].destination == t.expenses[e].destination && t'.expenses[e].breakdown == t.expenses[e].breakdown
    && if sync then
         && t'.expenses[e].facts == ExpensePayload(f).facts && t'.expenses[e].notes == ExpensePayload(f).notes
         && (t.expenses[e].breakdown.None? ==> t'.expenses[e].amount == ExpensePayload(f).amount)
       else t'.expenses[e] == t.expenses[e]
  }

  lemma SyncTouchesOnly(t: Tables, id: Id, e: Id, sync: bool)
    requires LinkExpense(t, id, e, sync).outcome.Done?
    ensures var t' := LinkExpense(t, id, e, sync).tables;
      && t'.expenses - {e} == t.expenses - {e}
      && SyncedOrKept(t, t', e, t.invoices[id].fiscal, sync)
  {
  }

  /** A link is accepted exactly for an invoice without expense and without lines and an expense no invoice has. */
  lemma LinkDoes(t: Tables, id: Id, e: Id, sync: bool)
    requires Sound(t)
    ensures var s := LinkExpense(t, id, e, sync);
      && (s.outcome.Done? <==>
            id in t.invoices && t.invoices[id].expense.None? && t.lines[id] == [] && Linkable(t, e))
      && (s.outcome.Rejected? ==> s.tables == t)
      && (s.outcome.Done? ==>
            && s.tables.invoices == t.invoices[id := Invoice(t.invoices[id].fiscal, Some(e), false)]
            && s.tables.lines == t.lines && s.tables.expenses - {e} == t.expenses - {e}
            && SyncedOrKept(t, s.tables, e, t.invoices[id].fiscal, sync))
  {
    if LinkExpense(t, id, e, sync).outcome.Done? {
      SyncTouchesOnly(t, id, e, sync);
    }
  }

  /** Letting go is accepted exactly when there is something to let go, which stays in the table. */
  lemma UnlinkDoes(t: Tables, id: Id)
    ensures var s := UnlinkExpense(t, id);
      && (s.outcome.Done? <==> id in t.invoices && t.invoices[id].expense.Some?)
      && (s.outcome.Rejected? ==> s.tables == t)
      && (s.outcome.Done? ==>
            && s.tables.invoices == t.invoices[id := Invoice(t.invoices[id].fiscal, None, true)]
            && s.tables.lines == t.lines && s.tables.expenses == t.expenses)
  {
  }

  /** An update is accepted exactly in these cases, and then the invoice says what it was given. */
  lemma UpdateDoes(t: Tables, id: Id, f: Fiscal, d: Option<Destination>)
    requires Good(t)
    ensures var s := Update(t, id, f, d);
      && (s.outcome.Done? <==>
            && id in t.invoices && !DocumentOfAnother(t, id, f)
            && (t.lines[id] != [] ==> f.Total() == t.invoices[id].fiscal.Total())
            && (d.Some? ==> ProjectExists(t, d.value)))
      && (s.outcome.Done? ==> id in s.tables.invoices && s.tables.invoices[id].fiscal == f)
      && (s.outcome.Done? && d.Some? ==> AllAt(s.tables, id, d.value))
      && (s.outcome.Done? && d.None? ==>
            forall e :: e in t.expenses ==>
              e in s.tables.expenses && s.tables.expenses[e].destination == t.expenses[e].destination)
  {
    if id in t.invoices && UpdateChecked(t, id, f) {
      RefiscalledIsReady(t, id, f);
      var t1 := Refiscalled(t, id, f);
      DestinationRejected(t1, id, d);
      KeepsItsFiscal(t1, id, d);
      if d.Some? {
        if ApplyDestination(t1, id, d).outcome.Done? {
          DestinationIsReached(t1, id, d.value);
        }
      } else {
        assert InvoiceBalanced(t, id);
        SyncMovesNothing(t1, id);
      }
    }
    OnlyItsOwnDocument(t, id, f);
  }

  // ---------------------------------------------------------------- what is answered

  /** A split is refused as a conflict on a linked invoice, and as a bad request otherwise. */
  lemma AnswerToSplits(t: Tables, id: Id, raw: seq<SplitLine>)
    requires id in t.invoices && id in t.lines
    ensures ApplySplits(t, id, raw).outcome ==
      if t.invoices[id].expense.Some? && !t.invoices[id].owned then Rejected(Conflict)
      else if Divisible(t, id, raw) then Done else Rejected(BadRequest)
  {
    SplitsAccepted(t, id, raw);
  }

  /** What is answered to a split, a link, its undoing and a removal; the first check that fails decides. */
  lemma AnswersAboutExpenses(t: Tables, id: Id, e: Id, sync: bool, raw: seq<SplitLine>)
    requires Sound(t)
    ensures id !in t.invoices ==> SetSplits(t, id, raw).outcome == Rejected(NotFound)
    ensures LinkExpense(t, id, e, sync).outcome ==
      if id !in t.invoices then Rejected(NotFound)
      else if t.invoices[id].expense.Some? || t.lines[id] != [] then Rejected(Conflict)
      else if e !in t.expenses then Rejected(NotFound)
      else if Linkable(t, e) then Done else Rejected(Conflict)
    ensures UnlinkExpense(t, id).outcome ==
      if id !in t.invoices then Rejected(NotFound)
      else if t.invoices[id].expense.None? then Rejected(Conflict) else Done
    ensures Remove(t, id).outcome == if id in t.invoices then Done else Rejected(NotFound)
  {
  }

  lemma AnswerToCreate(t: Tables, f: Fiscal, d: Option<Destination>, link: Option<Id>, sync: bool)
    requires Sound(t)
    ensures Create(t, f, d, link, sync).outcome ==
      if !NewDocument(t, f) then Rejected(Conflict)
      else if link.Some? && d.Some? then Rejected(BadRequest)
      else if link.Some? && link.value !in t.expenses then Rejected(NotFound)
      else if link.Some? && !Linkable(t, link.value) then Rejected(Conflict)
      else if d.Some? && !ProjectExists(t, d.value) then Rejected(BadRequest)
      else Done
  {
    FreshInvoiceId(t, f);
    LinkableSaved(t, f, link);
  }

  predicate DocumentOfAnother(t: Tables, id: Id, f: Fiscal) {
    exists i :: i in t.invoices && i != id && t.invoices[i].fiscal.rnc == f.rnc && t.invoices[i].fiscal.ncf == f.ncf
  }

  lemma AnswerToUpdate(t: Tables, id: Id, f: Fiscal, d: Option<Destination>)
    requires Good(t)
    ensures Update(t, id, f, d).outcome ==
      if id !in t.invoices then Rejected(NotFound)
      else if DocumentOfAnother(t, id, f) then Rejected(Conflict)
      else if t.lines[id] != [] && f.Total() != t.invoices[id].fiscal.Total() then Rejected(Conflict)
      else if d.Some? && !ProjectExists(t, d.value) then Rejected(BadRequest)
      else Done
  {
    OnlyItsOwnDocument(t, id, f);
    if id in t.invoices && UpdateChecked(t, id, f) {
      RefiscalledIsReady(t, id, f);
      DestinationRejected(Refiscalled(t, id, f), id, d);
    }
  }

  lemma OnlyItsOwnDocument(t: Tables, id: Id, f: Fiscal)
    requires Good(t)
    ensures id in t.invoices ==>
      ((SameDocument(f, t.invoices[id].fiscal) || !Taken(t, f, Some(id))) <==> !DocumentOfAnother(t, id, f))
  {
    if id in t.invoices && !SameDocument(f, t.invoices[id].fiscal) && Taken(t, f, Some(id)) {
      var i :| i in t.invoices && Some(i) != Some(id) && SameDocument(t.invoices[i].fiscal, f);
    }
  }

  lemma KeepsItsFiscal(t: Tables, id: Id, d: Option<Destination>)
    requires id in t.invoices && id in t.lines
    ensures var s := ApplyDestination(t, id, d);
      id in s.tables.invoices && s.tables.invoices[id].fiscal == t.invoices[id].fiscal
  {
  }

  lemma SyncMovesNothing(t: Tables, id: Id)
    requires Sound(t) && id in t.invoices
    requires forall k :: 0 <= k < |t.lines[id]| && t.lines[id][k].expense.Some? ==>
      GoesTo(t, t.lines[id][k].expense.value, t.lines[id][k].destination)
    ensures var t' := ApplyDestination(t, id, None).tables;
      forall e :: e in t.expenses ==> e in t'.expenses && t'.expenses[e].destination == t.expenses[e].destination
  {
    var ls, f := t.lines[id], t.invoices[id].fiscal;
    if ls != [] {
      LinesClaimDistinctly(t, id);
      SyncedLinesEffect(t.expenses, f, ls, |ls| > 1);
      forall e | e in t.expenses
        ensures SyncedLines(t.expenses, f, ls, |ls| > 1)[e].destination == t.expenses[e].destination
      {
        if k :| 0 <= k < |ls| && ls[k].expense == Some(e) {
        }
      }
    }
  }

  // ---------------------------------------------------------------- a split, in terms of claims alone

  /** What the lines send to a destination. */
  function SentTo(lines: seq<SplitLine>, d: Destination): int {
    if lines == [] then 0
    else (if lines[0].destination == d then lines[0].amount else 0) + SentTo(lines[1..], d)
  }

  ghost predicate Named(lines: seq<SplitLine>, d: Destination) {
    exists j :: 0 <= j < |lines| && lines[j].destination == d
  }

  lemma {:induction false} SentIsAmount(lines: seq<SplitLine>, d: Destination)
    ensures SentTo(lines, d) == AmountTo(lines, d)
  {
    if lines != [] {
      var n := |lines| - 1;
      SentIsAmount(lines[..n], d);
      SentToLast(lines[..n], lines[n], d);
      assert lines == lines[..n] + [lines[n]];
    }
  }

  lemma {:induction false} SentToLast(lines: seq<SplitLine>, last: SplitLine, d: Destination)
    ensures SentTo(lines + [last], d) == SentTo(lines, d) + if last.destination == d then last.amount else 0
  {
    if lines == [] {
      assert [] + [last] == [last] && [last][1..] == [];
    } else {
      assert (lines + [last])[1..] == lines[1..] + [last];
      SentToLast(lines[1..], last, d);
    }
  }

  /** The expense claimed costs what the lines send to the destination it serves, which some line names. */
  ghost predicate CostsItsLines(t: Tables, e: Id, raw: seq<SplitLine>) {
    && e in t.expenses && Named(raw, t.expenses[e].destination)
    && t.expenses[e].amount == SentTo(raw, t.expenses[e].destination)
  }

  ghost predicate Reached(t: Tables, id: Id, d: Destination) {
    exists k :: ClaimAt(t, id, k).Some? && GoesTo(t, ClaimAt(t, id, k).value, d)
  }

  lemma ClaimCostsItsLines(t: Tables, id: Id, raw: seq<SplitLine>, k: int)
    requires Sound(t) && id in t.invoices && Divisible(t, id, raw)
    requires ClaimAt(ApplySplits(t, id, raw).tables, id, k).Some?
    ensures var t' := ApplySplits(t, id, raw).tables;
      CostsItsLines(t', ClaimAt(t', id, k).value, raw)
  {
    var t', lines := ApplySplits(t, id, raw).tables, Merged(raw);
    SplitEffect(t, id, raw);
    DestinationsAreDistinct(raw);
    MergedEmpty(raw);
    var m := if |lines| > 1 then k else 0;
    assert LineServed(t, t', ClaimAt(t', id, ClaimPosition(lines, m)), Held(t, id), lines[m]);
    SentIsAmount(raw, lines[m].destination);
    assert lines[m].destination in Destinations(raw);
  }

  lemma LineIsReached(t: Tables, id: Id, raw: seq<SplitLine>, j: nat)
    requires Sound(t) && id in t.invoices && Divisible(t, id, raw) && j < |raw|
    ensures Reached(ApplySplits(t, id, raw).tables, id, raw[j].destination)
  {
    var t', lines := ApplySplits(t, id, raw).tables, Merged(raw);
    SplitEffect(t, id, raw);
    DestinationsAreDistinct(raw);
    assert raw[j].destination in Destinations(raw);
    var m :| 0 <= m < |lines| && lines[m].destination == raw[j].destination;
    assert LineServed(t, t', ClaimAt(t', id, ClaimPosition(lines, m)), Held(t, id), lines[m]);
  }

  /**
   * After a split every expense the invoice claims costs what the lines send to the destination it serves, and every
   * destination named has one.
   */
  lemma SplitCostsTheLines(t: Tables, id: Id, raw: seq<SplitLine>)
    requires Sound(t) && id in t.invoices && Divisible(t, id, raw)
    ensures var t' := ApplySplits(t, id, raw).tables;
      && (forall k :: ClaimAt(t', id, k).Some? ==> CostsItsLines(t', ClaimAt(t', id, k).value, raw))
      && (forall j :: 0 <= j < |raw| ==> Reached(t', id, raw[j].destination))
  {
    var t' := ApplySplits(t, id, raw).tables;
    forall k | ClaimAt(t', id, k).Some?
      ensures CostsItsLines(t', ClaimAt(t', id, k).value, raw)
    {
      ClaimCostsItsLines(t, id, raw, k);
    }
    forall j | 0 <= j < |raw|
      ensures Reached(t', id, raw[j].destination)
    {
      LineIsReached(t, id, raw, j);
    }
  }

  /**
   * After a split the expense of a line says what the line and the invoice say, and the line is kept with it; a single
   * line leaves an undivided invoice with one expense of its own.
   */
  lemma SplitWritesTheLines(t: Tables, id: Id, raw: seq<SplitLine>, k: nat)
    requires Sound(t) && id in t.invoices && Divisible(t, id, raw) && k < |Merged(raw)|
    ensures var t', lines, f := ApplySplits(t, id, raw).tables, Merged(raw), t.invoices[id].fiscal;
      var claim := ClaimAt(t', id, if |lines| > 1 then k else -1);
      var p := SplitPayload(f, lines[k].amount, lines[k].note, |lines| > 1);
      && claim.Some? && claim.value in t'.expenses
      && t'.expenses[claim.value] ==
           Expense(lines[k].destination, p.amount, p.facts, p.notes,
             if claim.value in t.expenses then t.expenses[claim.value].breakdown else None)
      && (if |lines| > 1 then
            && |t'.lines[id]| == |lines| && t'.invoices[id] == Invoice(f, None, true)
            && t'.lines[id][k] == Line(lines[k].destination, lines[k].amount, lines[k].note, claim)
          else t'.lines[id] == [] && t'.invoices[id] == Invoice(f, claim, true))
  {
    var lines := Merged(raw);
    SplitsAccepted(t, id, raw);
    MergedIsDistinct(raw);
    DividedClaims(t, id, lines, id, if |lines| > 1 then k else -1);
    DividedLine(t, id, lines, k);
  }

  /**
   * From a good ledger, an expense of the invoice survives a split exactly when some line names the destination it
   * serves, and then it goes on being the one of that destination.
   */
  lemma SplitKeepsRepeatedDestinations(t: Tables, id: Id, raw: seq<SplitLine>, k: int)
    requires Good(t) && id in t.invoices && Divisible(t, id, raw) && ClaimAt(t, id, k).Some?
    ensures var t', e := ApplySplits(t, id, raw).tables, ClaimAt(t, id, k).value;
      && e in t.expenses
      && (e in t'.expenses <==> Named(raw, t.expenses[e].destination))
      && (e in t'.expenses ==>
            t'.expenses[e].destination == t.expenses[e].destination && exists m :: ClaimAt(t', id, m) == Some(e))
  {
    HoldsItself(t, id, k);
    if Named(raw, t.expenses[ClaimAt(t, id, k).value].destination) {
      NamedIsKept(t, id, raw, ClaimAt(t, id, k).value);
    } else {
      UnnamedIsGone(t, id, raw, ClaimAt(t, id, k).value);
    }
  }

  lemma NamedIsKept(t: Tables, id: Id, raw: seq<SplitLine>, e: Id)
    requires Good(t) && id in t.invoices && Divisible(t, id, raw) && e in t.expenses
    requires Named(raw, t.expenses[e].destination) && ReuseOf(Held(t, id), t.expenses[e].destination) == Some(e)
    ensures var t' := ApplySplits(t, id, raw).tables;
      GoesTo(t', e, t.expenses[e].destination) && exists m :: ClaimAt(t', id, m) == Some(e)
  {
    var t', lines := ApplySplits(t, id, raw).tables, Merged(raw);
    SplitEffect(t, id, raw);
    DestinationsAreDistinct(raw);
    assert t.expenses[e].destination in Destinations(raw);
    var m :| 0 <= m < |lines| && lines[m].destination == t.expenses[e].destination;
    assert LineServed(t, t', ClaimAt(t', id, ClaimPosition(lines, m)), Held(t, id), lines[m]);
  }

  lemma UnnamedIsGone(t: Tables, id: Id, raw: seq<SplitLine>, e: Id)
    requires Good(t) && id in t.invoices && Divisible(t, id, raw) && e in t.expenses
    requires e in HeldIds(Held(t, id)) && !Named(raw, t.expenses[e].destination)
    ensures e !in ApplySplits(t, id, raw).tables.expenses
  {
    var lines := Merged(raw);
    SplitEffect(t, id, raw);
    HoldingsServe(t, id);
    forall m | 0 <= m < |lines|
      ensures ReuseOf(Held(t, id), lines[m].destination) != Some(e)
    {
      ReuseIsHeld(Held(t, id), lines[m].destination);
      DestinationsAreDistinct(raw);
      assert lines[m].destination in Destinations(raw);
    }
  }

  /** In a good ledger each holding is for the destination its expense serves, and no two are for the same. */
  lemma HoldingsServe(t: Tables, id: Id)
    requires Good(t) && id in t.invoices
    ensures forall h :: h in Held(t, id) ==> GoesTo(t, h.expense, h.destination)
    ensures forall h, g :: h in Held(t, id) && g in Held(t, id) && h.destination == g.destination ==> h == g
  {
    var ls := t.lines[id];
    assert InvoiceBalanced(t, id);
    LinesClaimDistinctly(t, id);
    LineHoldingsMirrorLines(ls);
    if ls != [] {
      assert Held(t, id) == LineHoldings(ls);
      forall h | h in Held(t, id)
        ensures GoesTo(t, h.expense, h.destination)
      {
        var k :| 0 <= k < |ls| && ls[k].expense == Some(h.expense) && ls[k].destination == h.destination;
        assert LineBalanced(t, ls[k], t.invoices[id].fiscal);
      }
      forall h, g | h in Held(t, id) && g in Held(t, id) && h.destination == g.destination
        ensures h == g
      {
        var k :| 0 <= k < |ls| && ls[k].expense == Some(h.expense) && ls[k].destination == h.destination;
        var l :| 0 <= l < |ls| && ls[l].expense == Some(g.expense) && ls[l].destination == g.destination;
        assert DistinctLines(ls);
        assert k == l;
      }
    }
  }

  /** In a good ledger an expense of an invoice is the one reused for the destination it serves. */
  lemma HoldsItself(t: Tables, id: Id, k: int)
    requires Good(t) && id in t.invoices && ClaimAt(t, id, k).Some?
    ensures var e := ClaimAt(t, id, k).value;
      e in t.expenses && e in HeldIds(Held(t, id)) && ReuseOf(Held(t, id), t.expenses[e].destination) == Some(e)
  {
    var e := ClaimAt(t, id, k).value;
    HoldingsAreTheClaims(t, id);
    HoldingsServe(t, id);
    var h :| h in Held(t, id) && h.expense == e;
    ReuseIsHeld(Held(t, id), h.destination);
  }
}
