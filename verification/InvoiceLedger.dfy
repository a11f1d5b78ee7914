/**
 * The ledger that ties fiscal invoices to expenses
 * (stp-api/src/fiscal-invoices/fiscal-invoices.service.ts), as functions on the tables it writes.
 * The service that updates those tables in place is FiscalInvoicesService; what is true of every run is in
 * LedgerProperties. An invoice has no expense, one expense born of it (owned), one expense that existed before
 * (linked), or is divided into lines with an expense each. Amounts are integer cents.
 */
module InvoiceLedger {
  import opened Wrappers
  import opened InvoiceSplit

  type Id = nat

  /** The fiscal data of an invoice. */
  datatype Fiscal = Fiscal(rnc: string, supplierName: string, ncf: string, expenseType: string, date: string,
                           notes: string, base: nat, itbis: nat, isc: nat, tip: nat, otherTax: nat)
  {
    /** `invoiceTotal`; the column `totalAmount` is always written with this value. */
    function Total(): nat {
      base + itbis + isc + tip + otherTax
    }
  }

  datatype Invoice = Invoice(fiscal: Fiscal, expense: Option<Id>, owned: bool)

  /** A row of `fiscal_invoice_splits`, in `position` order within its invoice. */
  datatype Line = Line(destination: Destination, amount: int, note: Option<string>, expense: Option<Id>)

  datatype Category = Materials | Equipment | Labor | Other

  /** What an expense takes from the invoice it belongs to, apart from its amount and its notes. */
  datatype Facts = Facts(rnc: string, supplierName: string, ncf: string, category: Category, date: string)

  /** The pieces the notes of an expense are joined from. */
  datatype NotePart = Reference(ncf: string) | PartOf(ncf: string, total: nat) | Remark(text: string)

  /** Quantity and unit price of an expense typed by hand, each in ten-thousandths. */
  datatype Breakdown = Breakdown(quantity: nat, unitPrice: nat)

  datatype Expense = Expense(destination: Destination, amount: int, facts: Facts, notes: seq<NotePart>,
                             breakdown: Option<Breakdown>)

  datatype Payload = Payload(amount: int, facts: Facts, notes: seq<NotePart>)

  datatype Tables = Tables(invoices: map<Id, Invoice>, lines: map<Id, seq<Line>>, expenses: map<Id, Expense>,
                           projects: set<nat>, nextInvoice: Id, nextExpense: Id)

  datatype Error = NotFound | Conflict | BadRequest

  datatype Outcome = Done | Rejected(error: Error)

  datatype Step = Step(tables: Tables, outcome: Outcome)

  // ---------------------------------------------------------------- what an invoice puts in its expenses

  function CategoryFor(expenseType: string): Category {
    if expenseType == "09" then Materials
    else if expenseType == "10" then Equipment
    else if expenseType == "01" then Labor
    else Other
  }

  function FactsOf(f: Fiscal): Facts {
    Facts(f.rnc, f.supplierName, f.ncf, CategoryFor(f.expenseType), f.date)
  }

  function Remarks(text: string): seq<NotePart> {
    if text == "" then [] else [Remark(text)]
  }

  /** The single expense of an undivided invoice. */
  function ExpensePayload(f: Fiscal): Payload {
    Payload(f.Total(), FactsOf(f), [Reference(f.ncf)] + Remarks(f.notes))
  }

  /** The expense of one line of a split. */
  function SplitPayload(f: Fiscal, amount: int, note: Option<string>, many: bool): Payload {
    Payload(amount, FactsOf(f),
            [if many then PartOf(f.ncf, f.Total()) else Reference(f.ncf)]
            + (if note.Some? then Remarks(note.value) else [])
            + Remarks(f.notes))
  }

  /** With a breakdown the amount is always quantity times unit price, to the cent. */
  function ComputeAmount(e: Expense): int {
    match e.breakdown
    case None => e.amount
    case Some(b) => RoundDiv(b.quantity * b.unitPrice, 1000000)
  }

  // ---------------------------------------------------------------- ExpensesService

  predicate Known(projects: set<nat>, d: Destination) {
    d.Project? ==> d.id in projects
  }

  predicate ProjectExists(t: Tables, d: Destination) {
    Known(t.projects, d)
  }

  /** `ExpensesService.update`: merges what is given, then recomputes the amount. */
  function UpdateExpense(t: Tables, e: Id, payload: Option<Payload>, d: Option<Destination>): Step {
    if e !in t.expenses then Step(t, Rejected(NotFound))
    else if d.Some? && d.value != t.expenses[e].destination && !ProjectExists(t, d.value) then
      Step(t, Rejected(BadRequest))
    else Step(t.(expenses := t.expenses[e := Patched(t.expenses[e], payload, d)]), Done)
  }

  function Patched(expense: Expense, payload: Option<Payload>, d: Option<Destination>): Expense {
    var moved := if d.Some? then expense.(destination := d.value) else expense;
    var merged := if payload.Some?
      then moved.(amount := payload.value.amount, facts := payload.value.facts, notes := payload.value.notes)
      else moved;
    merged.(amount := ComputeAmount(merged))
  }

  /** `ExpensesService.create` for an expense typed by hand. */
  function RecordExpense(t: Tables, e: Expense): Step {
    if !ProjectExists(t, e.destination) then Step(t, Rejected(BadRequest))
    else Step(t.(expenses := t.expenses[t.nextExpense := e.(amount := ComputeAmount(e))],
                 nextExpense := t.nextExpense + 1), Done)
  }

  // ---------------------------------------------------------------- applySplits

  /** An expense the invoice already has, with the destination it serves. */
  datatype Holding = Holding(destination: Destination, expense: Id)

  function LineHoldings(ls: seq<Line>): seq<Holding> {
    if ls == [] then []
    else
      var l := ls[|ls| - 1];
      LineHoldings(ls[..|ls| - 1]) + if l.expense.Some? then [Holding(l.destination, l.expense.value)] else []
  }

  /** Everything the invoice can reuse: the expenses of its lines, then its single expense. */
  function Held(t: Tables, id: Id): seq<Holding>
    requires id in t.invoices && id in t.lines
  {
    var single := t.invoices[id].expense;
    LineHoldings(t.lines[id]) +
    if single.Some? && single.value in t.expenses
    then [Holding(t.expenses[single.value].destination, single.value)] else []
  }

  function HeldIds(held: seq<Holding>): set<Id> {
    set h | h in held :: h.expense
  }

  /** The first holding offered for a destination is the one that is reused. */
  function ReuseOf(held: seq<Holding>, d: Destination): Option<Id> {
    if held == [] then None
    else
      var earlier := ReuseOf(held[..|held| - 1], d);
      if earlier.Some? then earlier
      else if held[|held| - 1].destination == d then Some(held[|held| - 1].expense)
      else None
  }

  /** How many of the lines find nothing to reuse. */
  function FreshCount(held: seq<Holding>, lines: seq<SplitLine>): nat {
    if lines == [] then 0
    else
      FreshCount(held, lines[..|lines| - 1])
      + if ReuseOf(held, lines[|lines| - 1].destination).None? then 1 else 0
  }

  /** The expense of each line: the one that already served its destination, or a new one. */
  function LineIds(held: seq<Holding>, lines: seq<SplitLine>, next: Id): (r: seq<Id>)
    ensures |r| == |lines|
  {
    if lines == [] then []
    else
      var front := lines[..|lines| - 1];
      var reuse := ReuseOf(held, lines[|lines| - 1].destination);
      LineIds(held, front, next) + [if reuse.Some? then reuse.value else next + FreshCount(held, front)]
  }

  function IndexOf(ids: seq<Id>, e: Id): (k: nat)
    requires e in ids
    ensures k < |ids| && ids[k] == e
  {
    if ids[|ids| - 1] == e then |ids| - 1 else IndexOf(ids[..|ids| - 1], e)
  }

  /** The expense after a line is charged to it; the fields the line does not set are kept. */
  function Charged(expenses: map<Id, Expense>, e: Id, f: Fiscal, line: SplitLine, many: bool): Expense {
    var p := SplitPayload(f, line.amount, line.note, many);
    Expense(line.destination, p.amount, p.facts, p.notes, if e in expenses then expenses[e].breakdown else None)
  }

  function NewLines(lines: seq<SplitLine>, ids: seq<Id>): (r: seq<Line>)
    requires |ids| == |lines|
    ensures |r| == |lines|
    ensures forall k :: 0 <= k < |r| ==>
      r[k] == Line(lines[k].destination, lines[k].amount, lines[k].note, Some(ids[k]))
  {
    seq(|lines|, k requires 0 <= k < |lines| =>
      Line(lines[k].destination, lines[k].amount, lines[k].note, Some(ids[k])))
  }

  /** The expenses without those in `drop`, and with each line charged to its expense. */
  function Recharged(expenses: map<Id, Expense>, drop: set<Id>, ids: seq<Id>, f: Fiscal,
      lines: seq<SplitLine>)
    : (r: map<Id, Expense>)
    requires |ids| == |lines|
    ensures forall e :: e in r <==> e in ids || (e in expenses && e !in drop)
    ensures forall e :: e in expenses && e !in drop && e !in ids ==> r[e] == expenses[e]
  {
    (map e | e in expenses && e !in drop && e !in ids :: expenses[e])
    + (map e | e in ids :: Charged(expenses, e, f, lines[IndexOf(ids, e)], |lines| > 1))
  }

  /** The tables after the lines (already merged and checked) replace whatever the invoice had. */
  function Divided(t: Tables, id: Id, lines: seq<SplitLine>): Tables
    requires id in t.invoices && id in t.lines && lines != []
  {
    var held := Held(t, id);
    DividedWith(t, id, lines, held, LineIds(held, lines, t.nextExpense))
  }

  function DividedWith(t: Tables, id: Id, lines: seq<SplitLine>, held: seq<Holding>, ids: seq<Id>): Tables
    requires id in t.invoices && lines != [] && |ids| == |lines|
  {
    var f := t.invoices[id].fiscal;
    var many := |lines| > 1;
    Tables(t.invoices[id := Invoice(f, if many then None else Some(ids[0]), true)],
           t.lines[id := if many then NewLines(lines, ids) else []],
           Recharged(t.expenses, HeldIds(held), ids, f, lines),
           t.projects, t.nextInvoice, t.nextExpense + FreshCount(held, lines))
  }

  function ApplySplits(t: Tables, id: Id, rawLines: seq<SplitLine>): Step
    requires id in t.invoices && id in t.lines
  {
    var lines := Merged(rawLines);
    var invoice := t.invoices[id];
    if invoice.expense.Some? && !invoice.owned then Step(t, Rejected(Conflict))
    else if !CheckSplit(invoice.fiscal.Total(), Amounts(lines)).ok then Step(t, Rejected(BadRequest))
    else if exists k :: 0 <= k < |lines| && !ProjectExists(t, lines[k].destination) then Step(t, Rejected(BadRequest))
    else if lines == [] then Step(t, Rejected(BadRequest))
    else Step(Divided(t, id, lines), Done)
  }

  // ---------------------------------------------------------------- the operations

  /** `syncSplitExpenses`: every line's expense follows the invoice; its amount is the line's. */
  function SyncedLines(expenses: map<Id, Expense>, f: Fiscal, ls: seq<Line>, many: bool): map<Id, Expense> {
    if ls == [] then expenses
    else
      var before := SyncedLines(expenses, f, ls[..|ls| - 1], many);
      var l := ls[|ls| - 1];
      if l.expense.None? || l.expense.value !in before then before
      else before[l.expense.value :=
                  Patched(before[l.expense.value], Some(SplitPayload(f, l.amount, l.note, many)), Some(l.destination))]
  }

  /** `applyDestination`: `None` = the destination was not given. */
  function ApplyDestination(t: Tables, id: Id, d: Option<Destination>): Step
    requires id in t.invoices && id in t.lines
  {
    var invoice, ls := t.invoices[id], t.lines[id];
    if ls != [] then
      if d.Some? then ApplySplits(t, id, [SplitLine(d.value, invoice.fiscal.Total(), None)])
      else Step(t.(expenses := SyncedLines(t.expenses, invoice.fiscal, ls, |ls| > 1)), Done)
    else if invoice.expense.None? && d.None? then Step(t, Done)
    else if invoice.expense.Some? && !invoice.owned then
      if d.Some? then UpdateExpense(t, invoice.expense.value, None, d) else Step(t, Done)
    else if invoice.expense.Some? then
      UpdateExpense(t, invoice.expense.value, Some(ExpensePayload(invoice.fiscal)), d)
    else if !ProjectExists(t, d.value) then Step(t, Rejected(BadRequest))
    else
      var p := ExpensePayload(invoice.fiscal);
      Step(t.(expenses := t.expenses[t.nextExpense := Expense(d.value, p.amount, p.facts, p.notes, None)],
              invoices := t.invoices[id := invoice.(expense := Some(t.nextExpense))],
              nextExpense := t.nextExpense + 1), Done)
  }

  /** The unique index on issuer and document number. */
  predicate SameDocument(f: Fiscal, g: Fiscal) {
    f.rnc == g.rnc && f.ncf == g.ncf
  }

  predicate Taken(t: Tables, f: Fiscal, except: Option<Id>) {
    exists i :: i in t.invoices && Some(i) != except && SameDocument(t.invoices[i].fiscal, f)
  }

  predicate LinkedElsewhere(t: Tables, e: Id) {
    exists i :: i in t.invoices && t.invoices[i].expense == Some(e)
  }

  function LinkExpense(t: Tables, id: Id, e: Id, sync: bool): Step {
    if id !in t.invoices || id !in t.lines then Step(t, Rejected(NotFound))
    else if t.invoices[id].expense.Some? || t.lines[id] != [] then Step(t, Rejected(Conflict))
    else if e !in t.expenses then Step(t, Rejected(NotFound))
    else if LinkedElsewhere(t, e) then Step(t, Rejected(Conflict))
    else
      var linked := t.(invoices := t.invoices[id := t.invoices[id].(expense := Some(e), owned := false)]);
      if sync then UpdateExpense(linked, e, Some(ExpensePayload(t.invoices[id].fiscal)), None) else Step(linked, Done)
  }

  function UnlinkExpense(t: Tables, id: Id): Step {
    if id !in t.invoices then Step(t, Rejected(NotFound))
    else if t.invoices[id].expense.None? then Step(t, Rejected(Conflict))
    else Step(t.(invoices := t.invoices[id := t.invoices[id].(expense := None, owned := true)]), Done)
  }

  /** The new invoice row, with no expense yet. */
  function Saved(t: Tables, f: Fiscal): Tables {
    t.(invoices := t.invoices[t.nextInvoice := Invoice(f, None, true)],
       lines := t.lines[t.nextInvoice := []],
       nextInvoice := t.nextInvoice + 1)
  }

  function Deleted(t: Tables, id: Id): Tables {
    t.(invoices := t.invoices - {id}, lines := t.lines - {id})
  }

  /** `create`: when the destination or the link fails, the invoice just saved is deleted again. */
  function Create(t: Tables, f: Fiscal, d: Option<Destination>, link: Option<Id>, sync: bool): Step {
    if Taken(t, f, None) then Step(t, Rejected(Conflict))
    else if link.Some? && d.Some? then Step(t, Rejected(BadRequest))
    else
      var id := t.nextInvoice;
      var placed := if link.Some? then LinkExpense(Saved(t, f), id, link.value, sync)
        else ApplyDestination(Saved(t, f), id, d);
      if placed.outcome.Done? then placed else Step(Deleted(placed.tables, id), placed.outcome)
  }

  /** `update`: the fiscal change is saved before the destination is applied, and stays when that fails. */
  function Update(t: Tables, id: Id, f: Fiscal, d: Option<Destination>): Step {
    if id !in t.invoices || id !in t.lines then Step(t, Rejected(NotFound))
    else
      var was := t.invoices[id].fiscal;
      if !SameDocument(f, was) && Taken(t, f, Some(id)) then Step(t, Rejected(Conflict))
      else if t.lines[id] != [] && f.Total() != was.Total() then Step(t, Rejected(Conflict))
      else ApplyDestination(t.(invoices := t.invoices[id := t.invoices[id].(fiscal := f)]), id, d)
  }

  function LineExpenses(ls: seq<Line>): set<Id> {
    set l | l in ls && l.expense.Some? :: l.expense.value
  }

  function Remove(t: Tables, id: Id): Step {
    if id !in t.invoices || id !in t.lines then Step(t, Rejected(NotFound))
    else
      var invoice := t.invoices[id];
      var born := if t.lines[id] != [] then LineExpenses(t.lines[id])
                  else if invoice.owned && invoice.expense.Some? then {invoice.expense.value}
                  else {};
      Step(t.(invoices := t.invoices - {id}, lines := t.lines - {id}, expenses := t.expenses - born), Done)
  }

  function SetSplits(t: Tables, id: Id, lines: seq<SplitLine>): Step {
    if id !in t.invoices || id !in t.lines then Step(t, Rejected(NotFound)) else ApplySplits(t, id, lines)
  }

  /** `assign`: one invoice after the other; one that fails does not stop the rest. */
  function Assign(t: Tables, ids: seq<Id>, d: Destination): Tables {
    if ids == [] then t
    else
      var before := Assign(t, ids[..|ids| - 1], d);
      var id := ids[|ids| - 1];
      if id in before.invoices && id in before.lines then ApplyDestination(before, id, Some(d)).tables else before
  }

  /** The ids it reports, in order: those whose turn met no such invoice or a destination that was refused. */
  function AssignFailures(t: Tables, ids: seq<Id>, d: Destination): seq<Id> {
    if ids == [] then []
    else
      var before := Assign(t, ids[..|ids| - 1], d);
      var id := ids[|ids| - 1];
      var failed := AssignFailures(t, ids[..|ids| - 1], d);
      if id in before.invoices && id in before.lines && ApplyDestination(before, id, Some(d)).outcome.Done?
      then failed else failed + [id]
  }

  // ---------------------------------------------------------------- what the database guarantees

  /** The expense that invoice `i` claims in its position `k`: -1 is its single expense, 0.. are its lines. */
  function ClaimAt(t: Tables, i: Id, k: int): Option<Id> {
    if k == -1 && i in t.invoices then t.invoices[i].expense
    else if i in t.lines && 0 <= k < |t.lines[i]| then t.lines[i][k].expense
    else None
  }

  ghost predicate NoDoubleClaims(t: Tables) {
    forall i, k, j, l :: ClaimAt(t, i, k).Some? && ClaimAt(t, i, k) == ClaimAt(t, j, l) ==> i == j && k == l
  }

  ghost predicate ClaimsExist(t: Tables) {
    forall i, k :: ClaimAt(t, i, k).Some? ==> ClaimAt(t, i, k).value in t.expenses
  }

  ghost predicate DistinctLines(ls: seq<Line>) {
    forall k, l :: 0 <= k < l < |ls| ==> ls[k].destination != ls[l].destination
  }

  /** Foreign keys, unique indexes and ids not yet used. */
  ghost predicate Constrained(t: Tables) {
    && t.lines.Keys == t.invoices.Keys
    && (forall i :: i in t.invoices ==> i < t.nextInvoice)
    && (forall e :: e in t.expenses ==> e < t.nextExpense && ProjectExists(t, t.expenses[e].destination))
    && (forall i :: i in t.lines ==> DistinctLines(t.lines[i]))
    && (forall i, k :: i in t.lines && 0 <= k < |t.lines[i]| ==> ProjectExists(t, t.lines[i][k].destination))
    && (forall i, j :: i in t.invoices && j in t.invoices && i != j ==>
          !SameDocument(t.invoices[i].fiscal, t.invoices[j].fiscal))
    && ClaimsExist(t)
  }

  /** Sound tables: the database's constraints, and no expense claimed twice. */
  ghost predicate Sound(t: Tables) {
    Constrained(t) && NoDoubleClaims(t)
  }

  // ---------------------------------------------------------------- what the business promises

  /** The expense exists, has no breakdown of its own, and says what the invoice says but for the notes. */
  ghost predicate Carries(t: Tables, e: Id, amount: int, f: Fiscal) {
    e in t.expenses && t.expenses[e].amount == amount && t.expenses[e].facts == FactsOf(f)
      && t.expenses[e].breakdown.None?
  }

  function LineAmounts(ls: seq<Line>): (r: seq<int>)
    ensures |r| == |ls| && forall k :: 0 <= k < |r| ==> r[k] == ls[k].amount
  {
    seq(|ls|, k requires 0 <= k < |ls| => ls[k].amount)
  }

  ghost predicate LineBalanced(t: Tables, l: Line, f: Fiscal) {
    && l.expense.Some?
    && Carries(t, l.expense.value, l.amount, f)
    && t.expenses[l.expense.value].destination == l.destination
  }

  ghost predicate DivisionBalanced(t: Tables, invoice: Invoice, ls: seq<Line>) {
    && |ls| >= 2
    && invoice.expense.None?
    && Sum(LineAmounts(ls)) == invoice.fiscal.Total()
    && forall k :: 0 <= k < |ls| ==> LineBalanced(t, ls[k], invoice.fiscal)
  }

  ghost predicate InvoiceBalanced(t: Tables, i: Id)
    requires i in t.invoices && i in t.lines
  {
    var invoice := t.invoices[i];
    && (t.lines[i] != [] ==> DivisionBalanced(t, invoice, t.lines[i]))
    && (invoice.expense.Some? && invoice.owned ==>
          Carries(t, invoice.expense.value, invoice.fiscal.Total(), invoice.fiscal))
    && (invoice.expense.None? ==> invoice.owned)
  }

  ghost predicate Balanced(t: Tables)
    requires t.lines.Keys == t.invoices.Keys
  {
    forall i :: i in t.invoices ==> InvoiceBalanced(t, i)
  }

  /** The invariant of the ledger. */
  ghost predicate Good(t: Tables) {
    Sound(t) && Balanced(t)
  }
}
