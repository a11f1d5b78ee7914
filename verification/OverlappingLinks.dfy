/**
 * Linking invoices to expenses when requests overlap: `linkExpense` of
 * stp-api/src/fiscal-invoices/fiscal-invoices.service.ts checks first and writes later, in no transaction and with no
 * unique index behind it, so anything may come in between.
 */
module OverlappingLinks {
  import opened Wrappers
  import opened InvoiceSplit
  import opened InvoiceLedger
  import opened LedgerDivision
  import opened LedgerProperties
  import opened LedgerLimits

  // ---------------------------------------------------------------- checks and late writes

  /** A link whose checks have passed, with the invoice as it was read. */
  datatype Check = Check(invoice: Id, expense: Id, sync: bool, fiscal: Fiscal)

  datatype World = World(t: Tables, checks: seq<Check>)

  datatype Event =
    | Whole(op: Operation)
    | CheckLink(invoice: Id, expense: Id, sync: bool)
    | WriteLink(check: nat)
    | WriteSync(check: nat)

  /** The foreign keys still ask for the invoice and the expense; nothing else is looked at again. */
  predicate Writable(t: Tables, id: Id, e: Id) {
    id in t.invoices && id in t.lines && e in t.expenses
  }

  function Written(t: Tables, id: Id, e: Id): Tables {
    if Writable(t, id, e)
    then t.(invoices := t.invoices[id := t.invoices[id].(expense := Some(e), owned := false)])
    else t
  }

  function After(w: World, ev: Event): World {
    match ev
    case Whole(op) => w.(t := Execute(w.t, op))
    case CheckLink(id, e, sync) =>
      if LinkExpense(w.t, id, e, sync).outcome.Done?
      then w.(checks := w.checks + [Check(id, e, sync, w.t.invoices[id].fiscal)]) else w
    case WriteLink(i) => if i < |w.checks| then w.(t := Written(w.t, w.checks[i].invoice, w.checks[i].expense)) else w
    case WriteSync(i) =>
      if i < |w.checks| && w.checks[i].sync
      then w.(t := UpdateExpense(w.t, w.checks[i].expense, Some(ExpensePayload(w.checks[i].fiscal)), None).tables)
        else w
  }

  function RunAll(w: World, evs: seq<Event>): World
    decreases evs
  {
    if evs == [] then w else RunAll(After(w, evs[0]), evs[1..])
  }

  // ---------------------------------------------------------------- when a late write claims twice

  /** Another invoice, or a line, has the expense by now. */
  ghost predicate TakenByAnother(t: Tables, id: Id, e: Id) {
    exists j, l :: ClaimAt(t, j, l) == Some(e) && (j != id || l != -1)
  }

  /** A link written after its expense was taken, or one that takes the expense of a line with nothing in between. */
  ghost predicate TooLate(w: World, ev: Event) {
    match ev
    case Whole(op) => LinksALine(w.t, op)
    case WriteLink(i) =>
      && i < |w.checks| && Writable(w.t, w.checks[i].invoice, w.checks[i].expense)
      && TakenByAnother(w.t, w.checks[i].invoice, w.checks[i].expense)
    case _ => false
  }

  lemma WrittenClaims(t: Tables, id: Id, e: Id, i: Id, k: int)
    requires Writable(t, id, e)
    ensures ClaimAt(Written(t, id, e), i, k) == if i == id && k == -1 then Some(e) else ClaimAt(t, i, k)
  {
  }

  /** A late write leaves every expense claimed once exactly when nobody else has taken its expense. */
  lemma WriteIsSoundUnlessTaken(t: Tables, id: Id, e: Id)
    requires Sound(t) && Writable(t, id, e)
    ensures Sound(Written(t, id, e)) <==> !TakenByAnother(t, id, e)
  {
    var t' := Written(t, id, e);
    forall i, k
      ensures ClaimAt(t', i, k) == if i == id && k == -1 then Some(e) else ClaimAt(t, i, k)
    {
      WrittenClaims(t, id, e, i, k);
    }
    if TakenByAnother(t, id, e) {
      var j, l :| ClaimAt(t, j, l) == Some(e) && (j != id || l != -1);
      assert ClaimAt(t', j, l) == ClaimAt(t', id, -1) == Some(e);
    }
  }

  lemma SyncKeepsSoundTables(t: Tables, e: Id, p: Payload)
    requires Sound(t)
    ensures Sound(UpdateExpense(t, e, Some(p), None).tables)
  {
    var t' := UpdateExpense(t, e, Some(p), None).tables;
    assert forall i, k :: ClaimAt(t', i, k) == ClaimAt(t, i, k);
  }

  lemma EventIsSoundUnlessTooLate(w: World, ev: Event)
    requires Sound(w.t)
    ensures Sound(After(w, ev).t) <==> !TooLate(w, ev)
  {
    match ev
    case Whole(op) => ExecuteIsSoundOffTheLines(w.t, op);
    case CheckLink(id, e, sync) =>
    case WriteLink(i) =>
      if i < |w.checks| && Writable(w.t, w.checks[i].invoice, w.checks[i].expense) {
        WriteIsSoundUnlessTaken(w.t, w.checks[i].invoice, w.checks[i].expense);
      }
    case WriteSync(i) =>
      if i < |w.checks| {
        SyncKeepsSoundTables(w.t, w.checks[i].expense, ExpensePayload(w.checks[i].fiscal));
      }
  }

  /** Sound now and after every event of the run. */
  ghost predicate AlwaysSound(w: World, evs: seq<Event>)
    decreases evs
  {
    Sound(w.t) && (evs == [] || AlwaysSound(After(w, evs[0]), evs[1..]))
  }

  ghost predicate NeverTooLate(w: World, evs: seq<Event>)
    decreases evs
  {
    evs == [] || (!TooLate(w, evs[0]) && NeverTooLate(After(w, evs[0]), evs[1..]))
  }

  lemma {:induction false} SoundAlongTheRun(w: World, evs: seq<Event>)
    requires Sound(w.t)
    ensures AlwaysSound(w, evs) <==> NeverTooLate(w, evs)
    decreases evs
  {
    if evs != [] {
      EventIsSoundUnlessTooLate(w, evs[0]);
      if Sound(After(w, evs[0]).t) {
        SoundAlongTheRun(After(w, evs[0]), evs[1..]);
      } else {
        assert !AlwaysSound(After(w, evs[0]), evs[1..]);
      }
    }
  }

  /**
   * However links overlap with everything else, no expense is ever claimed twice exactly when no link is written while
   * another invoice, or a line, has its expense.
   */
  lemma SingleClaimsExactlyWhenNeverTooLate(projects: set<nat>, evs: seq<Event>)
    ensures AlwaysSound(World(Empty(projects), []), evs) <==> NeverTooLate(World(Empty(projects), []), evs)
  {
    var t := Empty(projects);
    assert forall i, k :: ClaimAt(t, i, k) == None;
    SoundAlongTheRun(World(t, []), evs);
  }

  // ---------------------------------------------------------------- a link, step by step

  /** With nothing in between, the check and the writes are the link of the ledger. */
  lemma LinkIsItsSteps(w: World, id: Id, e: Id, sync: bool)
    requires LinkExpense(w.t, id, e, sync).outcome.Done?
    ensures var n := |w.checks|;
      RunAll(w, [CheckLink(id, e, sync), WriteLink(n), WriteSync(n)]).t == LinkExpense(w.t, id, e, sync).tables
  {
    var n := |w.checks|;
    var steps := [CheckLink(id, e, sync), WriteLink(n), WriteSync(n)];
    var checked := After(w, steps[0]);
    assert checked.t == w.t && checked.checks[n] == Check(id, e, sync, w.t.invoices[id].fiscal);
    var written := After(checked, steps[1]);
    assert steps[1..] == [WriteLink(n), WriteSync(n)] && steps[1..][1..] == [WriteSync(n)] && [WriteSync(n)][1..] == [];
    assert RunAll(w, steps) == RunAll(checked, steps[1..]) == RunAll(written, [WriteSync(n)])
        == RunAll(After(written, WriteSync(n)), []);
  }

  // ---------------------------------------------------------------- and late writes do happen

  /** Two invoices without expense and an expense nobody has, as registering them leaves the tables. */
  function TwoAndOne(): Tables {
    Tables(map[0 := Invoice(Document("A"), None, true), 1 := Invoice(Document("B"), None, true)],
           map[0 := [], 1 := []],
           map[0 := Expense(General, 1000, Facts("", "", "", Other, ""), [], None)], {}, 2, 1)
  }

  function Document(ncf: string): Fiscal {
    Fiscal("1", "S", ncf, "09", "2024-01-01", "", 1000, 0, 0, 0, 0)
  }

  lemma TwoAndOneIsReached()
    ensures Run(Empty({}), [OpRecord(Expense(General, 1000, Facts("", "", "", Other, ""), [], None)),
                            OpCreate(Document("A"), None, None, false), OpCreate(Document("B"), None, None, false)])
            == TwoAndOne()
  {
    var record := OpRecord(Expense(General, 1000, Facts("", "", "", Other, ""), [], None));
    var a, b := OpCreate(Document("A"), None, None, false), OpCreate(Document("B"), None, None, false);
    var ops := [record, a, b];
    var recorded := Execute(Empty({}), record);
    var one := Execute(recorded, a);
    assert ops[1..] == [a, b] && ops[1..][1..] == [b] && [b][1..] == [];
    assert one.invoices == map[0 := Invoice(Document("A"), None, true)];
    assert Document("A").ncf != Document("B").ncf;
    assert Run(Empty({}), ops) == Run(recorded, [a, b]) == Run(one, [b]) == Run(Execute(one, b), []);
  }

  /** Both links are checked before either is written: the expense ends with two invoices. */
  lemma OverlappingLinksClaimTwice()
    ensures var w := RunAll(World(TwoAndOne(), []),
                            [CheckLink(0, 0, false), CheckLink(1, 0, false), WriteLink(0), WriteLink(1)]);
      ClaimAt(w.t, 0, -1) == Some(0) == ClaimAt(w.t, 1, -1)
  {
    var w := World(TwoAndOne(), []);
    var evs := [CheckLink(0, 0, false), CheckLink(1, 0, false), WriteLink(0), WriteLink(1)];
    var w1 := After(w, evs[0]);
    var w2 := After(w1, evs[1]);
    assert |w2.checks| == 2 && w2.checks[0].invoice == 0 && w2.checks[1].invoice == 1;
    var w3 := After(w2, evs[2]);
    var w4 := After(w3, evs[3]);
    assert evs[1..][0] == evs[1] && evs[1..][1..] == [WriteLink(0), WriteLink(1)];
    assert [WriteLink(0), WriteLink(1)][1..] == [WriteLink(1)] && [WriteLink(1)][1..] == [];
    assert RunAll(w, evs) == RunAll(w1, evs[1..]) == RunAll(w2, [WriteLink(0), WriteLink(1)])
        == RunAll(w3, [WriteLink(1)]) == RunAll(w4, []);
  }
}
