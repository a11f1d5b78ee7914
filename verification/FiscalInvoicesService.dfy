/**
 * The service that updates the ledger's tables in place
 * (stp-api/src/fiscal-invoices/fiscal-invoices.service.ts). Every method leaves exactly the tables, and answers
 * exactly the outcome, of its function in InvoiceLedger.
 */
module FiscalInvoicesService {
  import opened Wrappers
  import opened InvoiceSplit
  import opened InvoiceLedger
  import opened LedgerDivision
  import opened LedgerProperties
  import opened LedgerLimits

  // ---------------------------------------------------------------- offering expenses for reuse

  /** `reusable` and `discard` after offering the holdings: the first of each destination, and the others. */
  ghost predicate OfferedSoFar(held: seq<Holding>, reusable: map<Destination, Id>, discard: set<Id>) {
    && (forall d :: d in reusable <==> ReuseOf(held, d).Some?)
    && (forall d :: d in reusable ==> reusable[d] == ReuseOf(held, d).value)
    && (forall h :: h in held ==>
          h.expense in discard || (h.destination in reusable && reusable[h.destination] == h.expense))
    && discard <= HeldIds(held)
    && (forall d :: d in reusable ==> reusable[d] !in discard)
  }

  lemma OfferOne(held: seq<Holding>, h: Holding, reusable: map<Destination, Id>, discard: set<Id>)
    requires DistinctHoldings(held + [h]) && OfferedSoFar(held, reusable, discard)
    ensures h.destination in reusable ==> OfferedSoFar(held + [h], reusable, discard + {h.expense})
    ensures h.destination !in reusable ==> OfferedSoFar(held + [h], reusable[h.destination := h.expense], discard)
  {
    var all := held + [h];
    assert all[..|all| - 1] == held;
    forall d
      ensures ReuseOf(all, d) == if ReuseOf(held, d).Some? then ReuseOf(held, d)
        else if h.destination == d then Some(h.expense) else None
    {
    }
    forall g | g in held
      ensures g.expense != h.expense
    {
      var a :| 0 <= a < |held| && held[a] == g;
      assert all[a] == g && all[|held|] == h;
    }
    forall d | ReuseOf(held, d).Some?
      ensures ReuseOf(held, d).value != h.expense
    {
      ReuseIsHeld(held, d);
    }
    assert HeldIds(all) == HeldIds(held) + {h.expense};
  }

  // ---------------------------------------------------------------- charging the lines one by one

  /** The expenses once the first `k` lines have been charged. */
  function ChargedSoFar(before: map<Id, Expense>, f: Fiscal, lines: seq<SplitLine>, ids: seq<Id>, k: nat)
    : map<Id, Expense>
    requires k <= |ids| == |lines|
  {
    if k == 0 then before
    else ChargedSoFar(before, f, lines, ids, k - 1)[ids[k - 1] :=
      Charged(before, ids[k - 1], f, lines[k - 1], |lines| > 1)]
  }

  lemma {:induction false} ChargedSoFarAt(before: map<Id, Expense>, f: Fiscal, lines: seq<SplitLine>, ids: seq<Id>,
      k: nat, e: Id)
    requires k <= |ids| == |lines| && DistinctIds(ids)
    ensures var now := ChargedSoFar(before, f, lines, ids, k);
      && (e in now <==> e in before || e in ids[..k])
      && (e in ids[..k] ==>
            IndexOf(ids[..k], e) < k && now[e] == Charged(before, e, f, lines[IndexOf(ids[..k], e)], |lines| > 1))
      && (e in before && e !in ids[..k] ==> now[e] == before[e])
  {
    if k > 0 {
      ChargedSoFarAt(before, f, lines, ids, k - 1, e);
      assert ids[..k] == ids[..k - 1] + [ids[k - 1]];
      assert ids[..k][..k - 1] == ids[..k - 1];
    }
  }

  /** Line `k` finds its expense as it was at the start. */
  lemma NotYetCharged(before: map<Id, Expense>, f: Fiscal, lines: seq<SplitLine>, ids: seq<Id>, k: nat)
    requires k < |ids| == |lines| && DistinctIds(ids)
    ensures Charged(ChargedSoFar(before, f, lines, ids, k), ids[k], f, lines[k], |lines| > 1) ==
      Charged(before, ids[k], f, lines[k], |lines| > 1)
  {
    ChargedSoFarAt(before, f, lines, ids, k, ids[k]);
    forall j | 0 <= j < k
      ensures ids[..k][j] != ids[k]
    {
      assert ids[j] != ids[k];
    }
  }

  /** Dropping what was held and not reused leaves the recharged expenses. */
  lemma DropTheRest(before: map<Id, Expense>, f: Fiscal, lines: seq<SplitLine>, ids: seq<Id>, held: set<Id>,
      gone: set<Id>)
    requires |ids| == |lines| && DistinctIds(ids)
    requires forall e :: e in gone <==> e in held && e !in ids
    ensures ChargedSoFar(before, f, lines, ids, |ids|) - gone == Recharged(before, held, ids, f, lines)
  {
    var now, r := ChargedSoFar(before, f, lines, ids, |ids|), Recharged(before, held, ids, f, lines);
    forall e: Id
      ensures e in now && e !in gone <==> e in r
      ensures e in r && e in now ==> now[e] == r[e]
    {
      RechargedAt(before, f, lines, ids, held, e);
    }
  }

  lemma RechargedAt(before: map<Id, Expense>, f: Fiscal, lines: seq<SplitLine>, ids: seq<Id>, held: set<Id>, e: Id)
    requires |ids| == |lines| && DistinctIds(ids)
    ensures var now, r := ChargedSoFar(before, f, lines, ids, |ids|), Recharged(before, held, ids, f, lines);
      && (e in r <==> e in now && (e !in held || e in ids))
      && (e in r && e in now ==> now[e] == r[e])
  {
    ChargedSoFarAt(before, f, lines, ids, |ids|, e);
    assert ids[..|ids|] == ids;
  }

  /** What is left to reuse once the first `k` lines took theirs. */
  ghost predicate LeftToReuse(held: seq<Holding>, reusable: map<Destination, Id>, lines: seq<SplitLine>, k: nat)
    requires k <= |lines|
  {
    && (forall d :: d in reusable <==> ReuseOf(held, d).Some? && forall j :: 0 <= j < k ==> lines[j].destination != d)
    && (forall d :: d in reusable ==> reusable[d] == ReuseOf(held, d).value)
  }

  /** The discarded expenses and the ones never reused are exactly those held that serve no line. */
  lemma GoneIsHeldAndUnused(held: seq<Holding>, offered: map<Destination, Id>, discard: set<Id>,
                            left: map<Destination, Id>, lines: seq<SplitLine>, next: Id, e: Id)
    requires DistinctHoldings(held) && DistinctDestinations(lines)
    requires forall h :: h in held ==> h.expense < next
    requires OfferedSoFar(held, offered, discard) && LeftToReuse(held, left, lines, |lines|)
    ensures e in discard + left.Values <==> e in HeldIds(held) && e !in LineIds(held, lines, next)
  {
    if e in HeldIds(held) {
      SurvivesWhenReused(held, lines, next, e);
      var h :| h in held && h.expense == e;
      if e !in discard {
        assert offered[h.destination] == e && ReuseOf(held, h.destination) == Some(e);
        if h.destination in left {
          assert left[h.destination] == e;
          forall j | 0 <= j < |lines|
            ensures ReuseOf(held, lines[j].destination) != Some(e)
          {
            ReuseIsInjective(held, h.destination, lines[j].destination);
          }
        } else {
          forall d | d in left
            ensures left[d] != e
          {
            ReuseIsInjective(held, h.destination, d);
          }
        }
      } else {
        forall d
          ensures ReuseOf(held, d) != Some(e)
        {
          if ReuseOf(held, d).Some? {
            assert d in offered;
          }
        }
      }
    } else {
      forall d | d in left
        ensures left[d] in HeldIds(held)
      {
        ReuseIsHeld(held, d);
      }
    }
  }

  lemma LeftAfter(held: seq<Holding>, reusable: map<Destination, Id>, lines: seq<SplitLine>, k: nat)
    requires k < |lines| && DistinctDestinations(lines) && LeftToReuse(held, reusable, lines, k)
    ensures lines[k].destination in reusable <==> ReuseOf(held, lines[k].destination).Some?
    ensures LeftToReuse(held, reusable - {lines[k].destination}, lines, k + 1)
    ensures lines[k].destination !in reusable ==> reusable - {lines[k].destination} == reusable
  {
  }

  lemma GoneAreHeldAndUnused(held: seq<Holding>, offered: map<Destination, Id>, discard: set<Id>,
                             left: map<Destination, Id>, lines: seq<SplitLine>, next: Id)
    requires DistinctHoldings(held) && DistinctDestinations(lines)
    requires forall h :: h in held ==> h.expense < next
    requires OfferedSoFar(held, offered, discard) && LeftToReuse(held, left, lines, |lines|)
    ensures forall e :: e in discard + left.Values <==> e in HeldIds(held) && e !in LineIds(held, lines, next)
  {
    forall e: Id
      ensures e in discard + left.Values <==> e in HeldIds(held) && e !in LineIds(held, lines, next)
    {
      GoneIsHeldAndUnused(held, offered, discard, left, lines, next, e);
    }
  }

  /** What the loop over the lines starts from. */
  datatype Before = Before(held: seq<Holding>, next: Id, expenses: map<Id, Expense>, f: Fiscal, lines: seq<SplitLine>)

  ghost predicate Startable(b: Before) {
    DistinctDestinations(b.lines) && DistinctHoldings(b.held) && forall h :: h in b.held ==> h.expense < b.next
  }

  /** The invariant of the loop over the lines. */
  ghost predicate Charging(b: Before, k: nat, created: seq<Id>, next: Id, reusable: map<Destination, Id>,
      now: map<Id, Expense>)
  {
    var ids := LineIds(b.held, b.lines, b.next);
    && k <= |b.lines|
    && created == ids[..k]
    && next == b.next + FreshCount(b.held, b.lines[..k])
    && LeftToReuse(b.held, reusable, b.lines, k)
    && now == ChargedSoFar(b.expenses, b.f, b.lines, ids, k)
  }

  lemma ChargingStep(b: Before, k: nat, created: seq<Id>, next: Id, reusable: map<Destination, Id>,
      now: map<Id, Expense>)
    requires k < |b.lines| && Startable(b) && Charging(b, k, created, next, reusable, now)
    ensures var line := b.lines[k];
      var found := line.destination in reusable;
      var e := if found then reusable[line.destination] else next;
      Charging(b, k + 1, created + [e], if found then next else next + 1, reusable - {line.destination},
               now[e := Charged(now, e, b.f, line, |b.lines| > 1)])
  {
    var ids := LineIds(b.held, b.lines, b.next);
    var d := b.lines[k].destination;
    var e := if d in reusable then reusable[d] else next;
    assert e == ids[k] && (d in reusable <==> ReuseOf(b.held, d).Some?) by {
      LineIdAt(b.held, b.lines, b.next, k);
      LeftAfter(b.held, reusable, b.lines, k);
    }
    assert Charged(now, e, b.f, b.lines[k], |b.lines| > 1) ==
      Charged(b.expenses, e, b.f, b.lines[k], |b.lines| > 1) by {
      LineIdsAreDistinct(b.held, b.lines, b.next);
      NotYetCharged(b.expenses, b.f, b.lines, ids, k);
    }
    assert LeftToReuse(b.held, reusable - {d}, b.lines, k + 1) by {
      LeftAfter(b.held, reusable, b.lines, k);
    }
    LineIdAt(b.held, b.lines, b.next, k);
    assert ids[..k + 1] == ids[..k] + [ids[k]];
  }

  lemma ChargingDone(b: Before, created: seq<Id>, next: Id, reusable: map<Destination, Id>, now: map<Id, Expense>)
    requires Charging(b, |b.lines|, created, next, reusable, now)
    ensures created == LineIds(b.held, b.lines, b.next)
    ensures next == b.next + FreshCount(b.held, b.lines)
    ensures LeftToReuse(b.held, reusable, b.lines, |b.lines|)
    ensures now == ChargedSoFar(b.expenses, b.f, b.lines, created, |b.lines|)
  {
    var ids := LineIds(b.held, b.lines, b.next);
    assert b.lines[..|b.lines|] == b.lines && ids[..|ids|] == ids;
  }

  lemma DroppedIsRecharged(b: Before, offered: map<Destination, Id>, discard: set<Id>, left: map<Destination, Id>)
    requires Startable(b) && OfferedSoFar(b.held, offered, discard) && LeftToReuse(b.held, left, b.lines, |b.lines|)
    ensures var ids := LineIds(b.held, b.lines, b.next);
      ChargedSoFar(b.expenses, b.f, b.lines, ids, |b.lines|) - (discard + left.Values) ==
      Recharged(b.expenses, HeldIds(b.held), ids, b.f, b.lines)
  {
    LineIdsAreDistinct(b.held, b.lines, b.next);
    GoneAreHeldAndUnused(b.held, offered, discard, left, b.lines, b.next);
    DropTheRest(b.expenses, b.f, b.lines, LineIds(b.held, b.lines, b.next), HeldIds(b.held), discard + left.Values);
  }

  /** The last writes of a division, once its lines have been charged. */
  function Stored(t: Tables, id: Id, lines: seq<SplitLine>, created: seq<Id>, gone: set<Id>): Tables
    requires id in t.invoices && lines != [] && |created| == |lines|
  {
    var many := |lines| > 1;
    Tables(t.invoices[id := Invoice(t.invoices[id].fiscal, if many then None else Some(created[0]), true)],
           t.lines[id := if many then NewLines(lines, created) else []],
           t.expenses - gone, t.projects, t.nextInvoice, t.nextExpense)
  }

  lemma StoredIsDivided(t: Tables, charged: Tables, id: Id, lines: seq<SplitLine>, held: seq<Holding>, ids: seq<Id>,
      gone: set<Id>)
    requires id in t.invoices && lines != [] && |ids| == |lines|
    requires charged == t.(expenses := charged.expenses, nextExpense := t.nextExpense + FreshCount(held, lines))
    requires charged.expenses - gone == Recharged(t.expenses, HeldIds(held), ids, t.invoices[id].fiscal, lines)
    ensures Stored(charged, id, lines, ids, gone) == DividedWith(t, id, lines, held, ids)
  {
  }

  /** What line `k` adds to the ids and to the count of new expenses. */
  lemma {:induction false} LineIdAt(held: seq<Holding>, lines: seq<SplitLine>, next: Id, k: nat)
    requires k < |lines|
    ensures var reuse := ReuseOf(held, lines[k].destination);
      && LineIds(held, lines, next)[k] == (if reuse.Some? then reuse.value else next + FreshCount(held, lines[..k]))
      && FreshCount(held, lines[..k + 1]) == FreshCount(held, lines[..k]) + if reuse.None? then 1 else 0
    decreases |lines|
  {
    assert lines[..k + 1][..k] == lines[..k];
    if k < |lines| - 1 {
      LineIdAt(held, lines[..|lines| - 1], next, k);
      assert lines[..|lines| - 1][..k] == lines[..k];
    }
  }

  lemma AssignStep(t: Tables, ids: seq<Id>, i: nat, d: Destination)
    requires Sound(t) && i < |ids|
    ensures var before := Assign(t, ids[..i], d);
      && Sound(before) && Sound(Assign(t, ids[..i + 1], d))
      && Assign(t, ids[..i + 1], d) == if ids[i] in before.invoices
           then ApplyDestination(before, ids[i], Some(d)).tables else before
  {
    assert ids[..i + 1][..i] == ids[..i];
    AssignKeepsSound(t, ids[..i], d);
    AssignKeepsSound(t, ids[..i + 1], d);
  }

  class Service {
    var invoices: map<Id, Invoice>
    var lines: map<Id, seq<Line>>
    var expenses: map<Id, Expense>
    var projects: set<nat>
    var nextInvoice: Id
    var nextExpense: Id

    /** The tables as a value. */
    ghost function State(): Tables
      reads this
    {
      Tables(invoices, lines, expenses, projects, nextInvoice, nextExpense)
    }

    constructor (projects: set<nat>)
      ensures State() == Empty(projects) && Good(State())
    {
      invoices, lines, expenses := map[], map[], map[];
      this.projects := projects;
      nextInvoice, nextExpense := 0, 0;
    }

    /** `ExpensesService.update`. */
    method ExpensesUpdate(e: Id, payload: Option<Payload>, d: Option<Destination>) returns (outcome: Outcome)
      modifies this`expenses
      ensures Step(State(), outcome) == UpdateExpense(old(State()), e, payload, d)
    {
      if e !in expenses {
        return Rejected(NotFound);
      }
      var expense := expenses[e];
      if d.Some? && d.value != expense.destination && !Known(projects, d.value) {
        return Rejected(BadRequest);
      }
      if d.Some? {
        expense := expense.(destination := d.value);
      }
      if payload.Some? {
        expense := expense.(amount := payload.value.amount, facts := payload.value.facts, notes := payload.value.notes);
      }
      expense := expense.(amount := ComputeAmount(expense));
      expenses := expenses[e := expense];
      outcome := Done;
    }

    /** `ExpensesService.create`, for an expense typed by hand. */
    method ExpensesCreate(expense: Expense) returns (outcome: Outcome)
      modifies this`expenses, this`nextExpense
      ensures Step(State(), outcome) == RecordExpense(old(State()), expense)
    {
      if !Known(projects, expense.destination) {
        return Rejected(BadRequest);
      }
      expenses := expenses[nextExpense := expense.(amount := ComputeAmount(expense))];
      nextExpense := nextExpense + 1;
      outcome := Done;
    }

    method ApplySplits(id: Id, rawLines: seq<SplitLine>) returns (outcome: Outcome)
      requires Sound(State()) && id in invoices
      modifies this
      ensures Step(State(), outcome) == InvoiceLedger.ApplySplits(old(State()), id, rawLines)
    {
      var merged := MergeSplitLines(rawLines);
      var invoice := invoices[id];
      if invoice.expense.Some? && !invoice.owned {
        return Rejected(Conflict);
      }
      if !CheckSplit(invoice.fiscal.Total(), Amounts(merged)).ok {
        return Rejected(BadRequest);
      }
      if exists k :: 0 <= k < |merged| && !Known(projects, merged[k].destination) {
        return Rejected(BadRequest);
      }
      if merged == [] {
        return Rejected(BadRequest);
      }
      MergedIsDistinct(rawLines);
      HeldIsOld(State(), id);
      var reusable, discard := OfferExpenses(id);
      var created := ReplaceSplit(id, merged, reusable, discard, Held(State(), id));
      outcome := Done;
    }

    /** The expenses of the invoice's lines, then its single one, offered for reuse by destination. */
    method OfferExpenses(id: Id) returns (reusable: map<Destination, Id>, discard: set<Id>)
      requires Sound(State()) && id in invoices
      ensures OfferedSoFar(Held(State(), id), reusable, discard)
    {
      var previous := lines[id];
      ghost var held := Held(State(), id);
      HeldIsOld(State(), id);
      LinesClaimDistinctly(State(), id);
      reusable, discard := map[], {};
      for i := 0 to |previous|
        invariant OfferedSoFar(LineHoldings(previous[..i]), reusable, discard)
      {
        assert previous[..i + 1][..i] == previous[..i];
        var p := previous[i];
        if p.expense.Some? {
          LineHoldingsMirrorLines(previous[..i + 1]);
          assert LineHoldings(previous[..i + 1]) ==
            LineHoldings(previous[..i]) + [Holding(p.destination, p.expense.value)];
          OfferOne(LineHoldings(previous[..i]), Holding(p.destination, p.expense.value), reusable, discard);
          if p.destination in reusable {
            discard := discard + {p.expense.value};
          } else {
            reusable := reusable[p.destination := p.expense.value];
          }
        } else {
          assert LineHoldings(previous[..i + 1]) == LineHoldings(previous[..i]);
        }
      }
      assert previous[..|previous|] == previous;
      var single := invoices[id].expense;
      if single.Some? && single.value in expenses {
        var d := expenses[single.value].destination;
        assert held == LineHoldings(previous) + [Holding(d, single.value)];
        OfferOne(LineHoldings(previous), Holding(d, single.value), reusable, discard);
        if d in reusable {
          discard := discard + {single.value};
        } else {
          reusable := reusable[d := single.value];
        }
      } else {
        assert held == LineHoldings(previous);
      }
    }

    /** Charges every line, stores the new split and deletes what no line reuses. */
    method ReplaceSplit(id: Id, newLines: seq<SplitLine>, offered: map<Destination, Id>, discard: set<Id>,
        ghost held: seq<Holding>)
      returns (created: seq<Id>)
      requires id in invoices && newLines != []
      requires Startable(Before(held, nextExpense, expenses, invoices[id].fiscal, newLines))
      requires OfferedSoFar(held, offered, discard)
      modifies this
      ensures created == LineIds(held, newLines, old(nextExpense))
      ensures State() == DividedWith(old(State()), id, newLines, held, created)
    {
      ghost var before := Before(held, nextExpense, expenses, invoices[id].fiscal, newLines);
      var left;
      created, left := ChargeLines(invoices[id].fiscal, newLines, offered, held);
      var gone := discard + left.Values;
      assert expenses - gone == Recharged(before.expenses, HeldIds(held), created, before.f, newLines) by {
        DroppedIsRecharged(before, offered, discard, left);
      }
      StoredIsDivided(old(State()), State(), id, newLines, held, created, gone);
      StoreSplit(id, newLines, created, gone);
    }

    /** The new split replaces the old one, and what no line reuses is deleted. */
    method StoreSplit(id: Id, newLines: seq<SplitLine>, created: seq<Id>, gone: set<Id>)
      requires id in invoices && newLines != [] && |created| == |newLines|
      modifies this
      ensures State() == Stored(old(State()), id, newLines, created, gone)
    {
      if |newLines| > 1 {
        lines := lines[id := NewLines(newLines, created)];
        invoices := invoices[id := invoices[id].(expense := None, owned := true)];
      } else {
        lines := lines[id := []];
        invoices := invoices[id := invoices[id].(expense := Some(created[0]), owned := true)];
      }
      expenses := expenses - gone;
    }

    /** The loop over the lines: each takes the expense offered for its destination, or a new one. */
    method ChargeLines(f: Fiscal, newLines: seq<SplitLine>, offered: map<Destination, Id>, ghost held: seq<Holding>)
      returns (created: seq<Id>, reusable: map<Destination, Id>)
      requires DistinctDestinations(newLines) && DistinctHoldings(held)
      requires forall h :: h in held ==> h.expense < nextExpense
      requires LeftToReuse(held, offered, newLines, 0)
      modifies this`expenses, this`nextExpense
      ensures created == LineIds(held, newLines, old(nextExpense))
      ensures nextExpense == old(nextExpense) + FreshCount(held, newLines)
      ensures LeftToReuse(held, reusable, newLines, |newLines|)
      ensures expenses == ChargedSoFar(old(expenses), f, newLines, created, |newLines|)
    {
      ghost var before := Before(held, nextExpense, expenses, f, newLines);
      var many := |newLines| > 1;
      reusable, created := offered, [];
      for k := 0 to |newLines|
        invariant Charging(before, k, created, nextExpense, reusable, expenses)
      {
        ChargingStep(before, k, created, nextExpense, reusable, expenses);
        var line := newLines[k];
        var e := nextExpense;
        if line.destination in reusable {
          e := reusable[line.destination];
        } else {
          nextExpense := nextExpense + 1;
        }
        reusable := reusable - {line.destination};
        expenses := expenses[e := Charged(expenses, e, f, line, many)];
        created := created + [e];
      }
      ChargingDone(before, created, nextExpense, reusable, expenses);
    }

    /** Every line's expense follows the invoice. With sound tables no update is refused. */
    method SyncSplitExpenses(id: Id)
      requires Sound(State()) && id in invoices
      modifies this`expenses
      ensures var was := old(State());
        State() == was.(expenses :=
          SyncedLines(was.expenses, was.invoices[id].fiscal, was.lines[id], |was.lines[id]| > 1))
    {
      var f, ls := invoices[id].fiscal, lines[id];
      ghost var before := expenses;
      LinesClaimDistinctly(State(), id);
      for i := 0 to |ls|
        invariant expenses == SyncedLines(before, f, ls[..i], |ls| > 1)
        invariant expenses.Keys == before.Keys
      {
        assert ls[..i + 1][..i] == ls[..i];
        var s := ls[i];
        if s.expense.Some? {
          assert ProjectExists(State(), s.destination);
          var updated := ExpensesUpdate(s.expense.value, Some(SplitPayload(f, s.amount, s.note, |ls| > 1)),
            Some(s.destination));
          assert updated.Done?;
        }
      }
      assert ls[..|ls|] == ls;
    }

    method ApplyDestination(id: Id, d: Option<Destination>) returns (outcome: Outcome)
      requires Sound(State()) && id in invoices
      modifies this
      ensures Step(State(), outcome) == InvoiceLedger.ApplyDestination(old(State()), id, d)
    {
      var invoice := invoices[id];
      if lines[id] != [] {
        if d.Some? {
          outcome := ApplySplits(id, [SplitLine(d.value, invoice.fiscal.Total(), None)]);
        } else {
          SyncSplitExpenses(id);
          outcome := Done;
        }
        return;
      }
      if invoice.expense.None? && d.None? {
        return Done;
      }
      if invoice.expense.Some? && !invoice.owned {
        if d.Some? {
          outcome := ExpensesUpdate(invoice.expense.value, None, d);
          return;
        }
        return Done;
      }
      var p := ExpensePayload(invoice.fiscal);
      if invoice.expense.Some? {
        outcome := ExpensesUpdate(invoice.expense.value, Some(p), d);
        return;
      }
      if !Known(projects, d.value) {
        return Rejected(BadRequest);
      }
      expenses := expenses[nextExpense := Expense(d.value, p.amount, p.facts, p.notes, None)];
      invoices := invoices[id := invoice.(expense := Some(nextExpense))];
      nextExpense := nextExpense + 1;
      outcome := Done;
    }

    /** The method looks at the other invoices only, so the expense of a line is taken too. */
    method LinkExpense(id: Id, e: Id, sync: bool) returns (outcome: Outcome)
      requires Sound(State())
      modifies this
      ensures Step(State(), outcome) == InvoiceLedger.LinkExpense(old(State()), id, e, sync)
      ensures outcome.Rejected? || !InALine(old(State()), e) <==> Sound(State())
    {
      LinkIsSoundOffTheLines(State(), id, e, sync);
      if id !in invoices {
        return Rejected(NotFound);
      }
      var invoice := invoices[id];
      if invoice.expense.Some? || lines[id] != [] {
        return Rejected(Conflict);
      }
      if e !in expenses {
        return Rejected(NotFound);
      }
      if exists i :: i in invoices && invoices[i].expense == Some(e) {
        return Rejected(Conflict);
      }
      invoices := invoices[id := invoice.(expense := Some(e), owned := false)];
      outcome := Done;
      if sync {
        outcome := ExpensesUpdate(e, Some(ExpensePayload(invoice.fiscal)), None);
      }
    }

    method UnlinkExpense(id: Id) returns (outcome: Outcome)
      modifies this`invoices
      ensures Step(State(), outcome) == InvoiceLedger.UnlinkExpense(old(State()), id)
      ensures Sound(old(State())) ==> Sound(State())
    {
      UnlinkIsSoundIfSound(State(), id);
      if id !in invoices {
        return Rejected(NotFound);
      }
      if invoices[id].expense.None? {
        return Rejected(Conflict);
      }
      invoices := invoices[id := invoices[id].(expense := None, owned := true)];
      outcome := Done;
    }

    method SetSplits(id: Id, rawLines: seq<SplitLine>) returns (outcome: Outcome)
      requires Sound(State())
      modifies this
      ensures Step(State(), outcome) == InvoiceLedger.SetSplits(old(State()), id, rawLines)
      ensures Sound(State())
    {
      if id !in invoices {
        return Rejected(NotFound);
      }
      SplitsKeepSound(State(), id, rawLines);
      outcome := ApplySplits(id, rawLines);
    }

    /** Saves the invoice and gives it its expense; if that fails, the invoice is deleted again. */
    method Create(f: Fiscal, d: Option<Destination>, link: Option<Id>, sync: bool) returns (outcome: Outcome)
      requires Sound(State())
      modifies this
      ensures Step(State(), outcome) == InvoiceLedger.Create(old(State()), f, d, link, sync)
      ensures outcome.Rejected? || link.None? || !InALine(old(State()), link.value) <==> Sound(State())
    {
      CreateIsSoundOffTheLines(State(), f, d, link, sync);
      if exists i :: i in invoices && SameDocument(invoices[i].fiscal, f) {
        return Rejected(Conflict);
      }
      if link.Some? && d.Some? {
        return Rejected(BadRequest);
      }
      var id := SaveInvoice(f);
      outcome := Place(id, d, link, sync);
      if outcome.Rejected? {
        invoices := invoices - {id};
        lines := lines - {id};
      }
    }

    method SaveInvoice(f: Fiscal) returns (id: Id)
      requires Sound(State()) && !Taken(State(), f, None)
      modifies this
      ensures id == old(nextInvoice) && State() == Saved(old(State()), f) && Sound(State()) && id in invoices
    {
      SavedIsSound(State(), f);
      id := nextInvoice;
      invoices := invoices[id := Invoice(f, None, true)];
      lines := lines[id := []];
      nextInvoice := id + 1;
    }

    /** The expense of an invoice just saved: the one it is linked to, or one born of it. */
    method Place(id: Id, d: Option<Destination>, link: Option<Id>, sync: bool) returns (outcome: Outcome)
      requires Sound(State()) && id in invoices
      modifies this
      ensures Step(State(), outcome) == if link.Some?
        then InvoiceLedger.LinkExpense(old(State()), id, link.value, sync)
        else InvoiceLedger.ApplyDestination(old(State()), id, d)
    {
      if link.Some? {
        outcome := LinkExpense(id, link.value, sync);
      } else {
        outcome := ApplyDestination(id, d);
      }
    }

    /** The fiscal change is saved first and stays, even when the destination is then refused. */
    method Update(id: Id, f: Fiscal, d: Option<Destination>) returns (outcome: Outcome)
      requires Sound(State())
      modifies this
      ensures Step(State(), outcome) == InvoiceLedger.Update(old(State()), id, f, d)
      ensures Sound(State())
    {
      UpdateKeepsSound(State(), id, f, d);
      if id !in invoices {
        return Rejected(NotFound);
      }
      var was := invoices[id].fiscal;
      if !SameDocument(f, was) && exists i :: i in invoices && i != id && SameDocument(invoices[i].fiscal, f) {
        return Rejected(Conflict);
      }
      if lines[id] != [] && f.Total() != was.Total() {
        return Rejected(Conflict);
      }
      RefiscalledIsSound(State(), id, f);
      invoices := invoices[id := invoices[id].(fiscal := f)];
      outcome := ApplyDestination(id, d);
    }

    /** Deletes the invoice with the expenses born of it; a linked expense stays. */
    method Remove(id: Id) returns (outcome: Outcome)
      requires Sound(State())
      modifies this
      ensures Step(State(), outcome) == InvoiceLedger.Remove(old(State()), id)
      ensures Sound(State())
    {
      RemoveKeepsSound(State(), id);
      if id !in invoices {
        return Rejected(NotFound);
      }
      var invoice := invoices[id];
      if lines[id] != [] {
        expenses := expenses - LineExpenses(lines[id]);
      } else if invoice.owned && invoice.expense.Some? {
        expenses := expenses - {invoice.expense.value};
      }
      invoices := invoices - {id};
      lines := lines - {id};
      outcome := Done;
    }

    /** One invoice after the other; those that fail are reported and do not stop the rest. */
    method Assign(ids: seq<Id>, d: Destination) returns (updated: nat, failed: seq<Id>)
      requires Sound(State())
      modifies this
      ensures State() == InvoiceLedger.Assign(old(State()), ids, d)
      ensures Sound(State())
      ensures failed == AssignFailures(old(State()), ids, d) && updated == |ids| - |failed|
    {
      ghost var was := State();
      updated, failed := 0, [];
      for i := 0 to |ids|
        invariant State() == InvoiceLedger.Assign(was, ids[..i], d)
        invariant Sound(State())
        invariant failed == AssignFailures(was, ids[..i], d) && updated == i - |failed|
      {
        AssignStep(was, ids, i, d);
        assert ids[..i + 1][..i] == ids[..i];
        if ids[i] in invoices {
          var outcome := ApplyDestination(ids[i], Some(d));
          if outcome.Done? {
            updated := updated + 1;
          } else {
            failed := failed + [ids[i]];
          }
        } else {
          failed := failed + [ids[i]];
        }
      }
      assert ids[..|ids|] == ids;
    }
  }
}
