/**
 * The append-only ledger of material prices (stp-api/src/costs/material-prices.service.ts) and the prices it derives
 * from expenses (stp-api/src/costs/expense-price.ts). Prices are stored with four decimals.
 */
module MaterialPrices {
  import opened Wrappers
  import opened Rounding
  import opened PriceSelection

  // ---------------------------------------------------------------- a derived price

  datatype ExpenseInput = ExpenseInput(
    expense: nat,
    material: Option<nat>,
    quantity: Option<real>,
    unitPrice: Option<real>,
    itbisIncluded: bool,
    supplier: Option<nat>,
    date: nat,
    user: Option<nat>)

  /** The material is known and so is what one unit of it cost. */
  predicate YieldsPrice(e: ExpenseInput) {
    e.material.Some? && e.quantity.Some? && e.quantity.value > 0.0 && e.unitPrice.Some? && e.unitPrice.value >= 0.0
  }

  predicate CloseTo(a: real, b: real) {
    -0.000001 <= a - b <= 0.000001
  }

  /** `!derivedPriceChanged`: the stored price says what the expense says. */
  predicate Matches(p: Price, e: ExpenseInput)
    requires YieldsPrice(e)
  {
    && p.material == e.material.value && CloseTo(p.price, e.unitPrice.value) && p.date == e.date
    && p.supplier == e.supplier && p.itbisIncluded == e.itbisIncluded
  }

  const EXPENSE_ITBIS_RATE := 18.0

  function ExpenseTerms(itbisIncluded: bool): Terms {
    Terms(true, None, itbisIncluded, EXPENSE_ITBIS_RATE, 0.0)
  }

  function DerivedRow(id: nat, e: ExpenseInput, now: nat): Price
    requires YieldsPrice(e)
  {
    var net := NetUnitPrice(e.unitPrice.value, ExpenseTerms(e.itbisIncluded));
    Price(id, e.material.value, e.supplier, Round4(e.unitPrice.value), e.itbisIncluded,
          if net.Some? then net.value else 0.0, e.date, now, Some(e.expense), None)
  }

  /** The comparable price of a derived row is the unit price with the tax taken out if it was in. */
  lemma DerivedNetIsWithoutTax(id: nat, e: ExpenseInput, now: nat)
    requires YieldsPrice(e)
    ensures var factor := if e.itbisIncluded then 1.18 else 1.0;
      -0.00005 * factor <= DerivedRow(id, e, now).net * factor - e.unitPrice.value <= 0.00005 * factor
  {
    var t := ExpenseTerms(e.itbisIncluded);
    NetRecoversThePrice(e.unitPrice.value, t);
    assert TaxFactor(t) == if e.itbisIncluded then 1.18 else 1.0;
    assert Discounted(e.unitPrice.value, t) == e.unitPrice.value;
  }

  // ---------------------------------------------------------------- the table

  type Rows = seq<Price>

  /** The live row of an expense, the last captured if there were several. */
  function LiveOf(rows: Rows, expense: nat): Option<nat> {
    if rows == [] then None
    else
      var n := |rows| - 1;
      if rows[n].expense == Some(expense) && Live(rows[n]) then Some(n) else LiveOf(rows[..n], expense)
  }

  lemma {:induction false} LiveOfFinds(rows: Rows, expense: nat)
    ensures LiveOf(rows, expense).None? <==>
      forall i :: 0 <= i < |rows| ==> !(rows[i].expense == Some(expense) && Live(rows[i]))
    ensures LiveOf(rows, expense).Some? ==>
      var k := LiveOf(rows, expense).value;
      k < |rows| && rows[k].expense == Some(expense) && Live(rows[k])
  {
    if rows != [] {
      LiveOfFinds(rows[..|rows| - 1], expense);
    }
  }

  function Marked(rows: Rows, k: nat, mark: VoidMark): Rows
    requires k < |rows|
  {
    rows[k := rows[k].(voided := Some(mark))]
  }

  /** `save` of a new row: the partial unique index refuses a second live row of one expense. */
  function Inserted(rows: Rows, row: Price): Rows {
    if row.expense.Some? && Live(row) && LiveOf(rows, row.expense.value).Some? then rows else rows + [row]
  }

  // ---------------------------------------------------------------- operations

  datatype PriceError =
    | MaterialNotFound | SupplierNotFound | MissingExchangeRate | BadTerms | PriceNotFound | AlreadyVoided

  datatype NewPrice = NewPrice(material: nat, supplier: Option<nat>, price: real, terms: Terms, date: Option<nat>)

  datatype Store = Store(rows: Rows, now: nat, materials: set<nat>, suppliers: set<nat>)

  function CreateError(s: Store, p: NewPrice): Option<PriceError> {
    if p.material !in s.materials then Some(MaterialNotFound)
    else if p.supplier.Some? && p.supplier.value !in s.suppliers then Some(SupplierNotFound)
    else if !p.terms.inDop && (p.terms.exchangeRate.None? || p.terms.exchangeRate.value == 0.0)
      then Some(MissingExchangeRate)
    else if NetUnitPrice(p.price, p.terms).None? then Some(BadTerms)
    else None
  }

  function Created(s: Store, p: NewPrice): Store {
    if CreateError(s, p).Some? then s
    else
      s.(rows := s.rows + [Price(|s.rows|, p.material, p.supplier, Round4(p.price), p.terms.itbisIncluded,
                                 NetUnitPrice(p.price, p.terms).value,
                                 if p.date.Some? then p.date.value else s.now, s.now, None, None)])
  }

  function VoidError(s: Store, k: nat): Option<PriceError> {
    if k >= |s.rows| then Some(PriceNotFound) else if !Live(s.rows[k]) then Some(AlreadyVoided) else None
  }

  function Voided(s: Store, k: nat, user: nat, reason: string): Store {
    if VoidError(s, k).Some? then s else s.(rows := Marked(s.rows, k, VoidMark(s.now, Some(user), Given(reason))))
  }

  /** `syncFromExpense` on the row that it read: first the mark on that row, if any ... */
  function MarkedFor(s: Store, e: ExpenseInput, existing: Option<nat>): Store {
    if existing.None? || existing.value >= |s.rows| then s
    else if !YieldsPrice(e) then s.(rows := Marked(s.rows, existing.value, VoidMark(s.now, e.user, NoLongerPriced)))
    else if Matches(s.rows[existing.value], e) then s
    else s.(rows := Marked(s.rows, existing.value, VoidMark(s.now, e.user, Replaced)))
  }

  /** ... then the new row, if there is to be one. */
  predicate ToInsert(rows: Rows, e: ExpenseInput, existing: Option<nat>) {
    YieldsPrice(e) && !(existing.Some? && existing.value < |rows| && Matches(rows[existing.value], e))
  }

  function InsertedFor(s: Store, e: ExpenseInput, existing: Option<nat>): Store {
    if ToInsert(s.rows, e, existing) then Appended(s, e) else s
  }

  /** Both writes with nothing in between. */
  function Written(s: Store, e: ExpenseInput, existing: Option<nat>): Store {
    InsertedFor(MarkedFor(s, e, existing), e, existing)
  }

  function Appended(s: Store, e: ExpenseInput): Store
    requires YieldsPrice(e)
  {
    s.(rows := Inserted(s.rows, DerivedRow(|s.rows|, e, s.now)))
  }

  function Synced(s: Store, e: ExpenseInput): Store {
    Written(s, e, LiveOf(s.rows, e.expense))
  }

  function VoidIf(p: Price, expense: nat, mark: VoidMark): Price {
    if p.expense == Some(expense) && Live(p) then p.(voided := Some(mark)) else p
  }

  function VoidedWhere(rows: Rows, expense: nat, mark: VoidMark): (after: Rows)
    ensures |after| == |rows| && forall i :: 0 <= i < |rows| ==> after[i] == VoidIf(rows[i], expense, mark)
  {
    seq(|rows|, i requires 0 <= i < |rows| => VoidIf(rows[i], expense, mark))
  }

  function ExpenseDeleted(s: Store, expense: nat, user: Option<nat>): Store {
    s.(rows := VoidedWhere(s.rows, expense, VoidMark(s.now, user, ExpenseGone)))
  }

  // ---------------------------------------------------------------- what every operation keeps

  /** Row `i` knows its place, and no expense has two live rows. */
  ghost predicate Valid(rows: Rows) {
    && (forall i :: 0 <= i < |rows| ==> rows[i].id == i)
    && (forall i, j :: 0 <= i < j < |rows| ==> Exclusive(rows[i], rows[j]))
  }

  predicate Exclusive(p: Price, q: Price) {
    p.expense.Some? && p.expense == q.expense ==> !Live(p) || !Live(q)
  }

  /** Everything of a row but its void mark. */
  predicate SameRow(p: Price, q: Price) {
    p == q.(voided := p.voided)
  }

  /** No row is gone, no row has changed but in its mark, and no mark has been taken back. */
  ghost predicate Continues(before: Rows, after: Rows) {
    && |before| <= |after|
    && forall i :: 0 <= i < |before| ==> Kept(before[i], after[i])
  }

  predicate Kept(p: Price, q: Price) {
    SameRow(p, q) && (!Live(p) ==> !Live(q))
  }

  lemma ContinuesTransitive(a: Rows, b: Rows, c: Rows)
    requires Continues(a, b) && Continues(b, c)
    ensures Continues(a, c)
  {
    forall i | 0 <= i < |a|
      ensures Kept(a[i], c[i])
    {
      assert Kept(a[i], b[i]) && Kept(b[i], c[i]);
    }
  }

  lemma MarkKeepsValid(rows: Rows, k: nat, mark: VoidMark)
    requires Valid(rows) && k < |rows|
    ensures Valid(Marked(rows, k, mark)) && Continues(rows, Marked(rows, k, mark))
  {
    var after := Marked(rows, k, mark);
    forall i, j | 0 <= i < j < |after|
      ensures Exclusive(after[i], after[j])
    {
      assert Exclusive(rows[i], rows[j]);
    }
  }

  lemma InsertKeepsValid(rows: Rows, row: Price)
    requires Valid(rows) && row.id == |rows|
    ensures Valid(Inserted(rows, row)) && Continues(rows, Inserted(rows, row))
  {
    var after := Inserted(rows, row);
    if after != rows && row.expense.Some? {
      LiveOfFinds(rows, row.expense.value);
    }
    forall i, j | 0 <= i < j < |after|
      ensures Exclusive(after[i], after[j])
    {
      assert j < |rows| ==> Exclusive(rows[i], rows[j]);
    }
  }

  lemma MarkedForKeepsValid(s: Store, e: ExpenseInput, existing: Option<nat>)
    requires Valid(s.rows)
    ensures Valid(MarkedFor(s, e, existing).rows) && Continues(s.rows, MarkedFor(s, e, existing).rows)
  {
    if existing.Some? && existing.value < |s.rows| {
      var reason := if YieldsPrice(e) then Replaced else NoLongerPriced;
      MarkKeepsValid(s.rows, existing.value, VoidMark(s.now, e.user, reason));
    }
  }

  lemma InsertedForKeepsValid(s: Store, e: ExpenseInput, existing: Option<nat>)
    requires Valid(s.rows)
    ensures Valid(InsertedFor(s, e, existing).rows) && Continues(s.rows, InsertedFor(s, e, existing).rows)
  {
    if ToInsert(s.rows, e, existing) {
      InsertKeepsValid(s.rows, DerivedRow(|s.rows|, e, s.now));
    }
  }

  lemma WriteKeepsValid(s: Store, e: ExpenseInput, existing: Option<nat>)
    requires Valid(s.rows)
    ensures Valid(Written(s, e, existing).rows) && Continues(s.rows, Written(s, e, existing).rows)
  {
    var marked := MarkedFor(s, e, existing);
    MarkedForKeepsValid(s, e, existing);
    InsertedForKeepsValid(marked, e, existing);
    ContinuesTransitive(s.rows, marked.rows, Written(s, e, existing).rows);
  }

  lemma DeleteKeepsValid(s: Store, expense: nat, user: Option<nat>)
    requires Valid(s.rows)
    ensures Valid(ExpenseDeleted(s, expense, user).rows) && Continues(s.rows, ExpenseDeleted(s, expense, user).rows)
  {
    var after := ExpenseDeleted(s, expense, user).rows;
    forall i, j | 0 <= i < j < |after|
      ensures Exclusive(after[i], after[j])
    {
      assert Exclusive(s.rows[i], s.rows[j]);
      assert Kept(s.rows[i], after[i]) && Kept(s.rows[j], after[j]);
    }
    forall i | 0 <= i < |after|
      ensures after[i].id == i
    {
      assert Kept(s.rows[i], after[i]);
    }
  }

  // ---------------------------------------------------------------- runs

  /** A sync may be split: other operations may come between its reading, its mark and its insert. */
  datatype Op =
    | Create(price: NewPrice)
    | Void(id: nat, voidedBy: nat, reason: string)
    | Sync(input: ExpenseInput)
    | SyncRead(input: ExpenseInput)
    | SyncMark(index: nat)
    | SyncInsert(index: nat)
    | DeleteExpense(expense: nat, user: Option<nat>)
    | Tick(ms: nat)

  datatype Pending = Pending(input: ExpenseInput, existing: Option<nat>, marked: bool)

  datatype State = State(store: Store, pending: seq<Pending>)

  function Step(s: State, op: Op): State {
    match op
    case Create(p) => s.(store := Created(s.store, p))
    case Void(k, user, reason) => s.(store := Voided(s.store, k, user, reason))
    case Sync(e) => s.(store := Synced(s.store, e))
    case SyncRead(e) => s.(pending := s.pending + [Pending(e, LiveOf(s.store.rows, e.expense), false)])
    case SyncMark(i) =>
      if i < |s.pending| && !s.pending[i].marked then
        s.(store := MarkedFor(s.store, s.pending[i].input, s.pending[i].existing),
           pending := s.pending[i := s.pending[i].(marked := true)])
      else s
    case SyncInsert(i) =>
      if i < |s.pending| && s.pending[i].marked then
        s.(store := InsertedFor(s.store, s.pending[i].input, s.pending[i].existing))
      else s
    case DeleteExpense(e, user) => s.(store := ExpenseDeleted(s.store, e, user))
    case Tick(ms) => s.(store := s.store.(now := s.store.now + ms))
  }

  function Run(s: State, ops: seq<Op>): State
    decreases ops
  {
    if ops == [] then s else Run(Step(s, ops[0]), ops[1..])
  }

  lemma StepKeepsHistory(s: State, op: Op)
    requires Valid(s.store.rows)
    ensures Valid(Step(s, op).store.rows) && Continues(s.store.rows, Step(s, op).store.rows)
  {
    match op
    case Create(p) =>
      if CreateError(s.store, p).None? {
        var row := Created(s.store, p).rows[|s.store.rows|];
        InsertKeepsValid(s.store.rows, row);
      }
    case Void(k, user, reason) =>
      if VoidError(s.store, k).None? {
        MarkKeepsValid(s.store.rows, k, VoidMark(s.store.now, Some(user), Given(reason)));
      }
    case Sync(e) => WriteKeepsValid(s.store, e, LiveOf(s.store.rows, e.expense));
    case SyncMark(i) =>
      if i < |s.pending| {
        MarkedForKeepsValid(s.store, s.pending[i].input, s.pending[i].existing);
      }
    case SyncInsert(i) =>
      if i < |s.pending| {
        InsertedForKeepsValid(s.store, s.pending[i].input, s.pending[i].existing);
      }
    case DeleteExpense(e, user) => DeleteKeepsValid(s.store, e, user);
    case _ =>
  }

  /**
   * Over any run, syncs interleaved included: no row disappears or changes its price, no void mark is taken back, and
   * no expense ever has two live prices.
   */
  lemma {:induction false} RunsKeepHistory(s: State, ops: seq<Op>)
    requires Valid(s.store.rows)
    ensures Valid(Run(s, ops).store.rows) && Continues(s.store.rows, Run(s, ops).store.rows)
    decreases ops
  {
    if ops != [] {
      StepKeepsHistory(s, ops[0]);
      RunsKeepHistory(Step(s, ops[0]), ops[1..]);
      ContinuesTransitive(s.store.rows, Step(s, ops[0]).store.rows, Run(s, ops).store.rows);
    }
  }

  /** The operations that are not a late mark leave every mark exactly as it was set. */
  lemma MarksAreFinal(s: State, op: Op, i: nat)
    requires Valid(s.store.rows) && !op.SyncMark? && i < |s.store.rows| && !Live(s.store.rows[i])
    ensures i < |Step(s, op).store.rows| && Step(s, op).store.rows[i] == s.store.rows[i]
  {
    match op
    case Sync(e) => LiveOfFinds(s.store.rows, e.expense);
    case _ =>
  }

  // ---------------------------------------------------------------- a sync, and the next one

  /** The stored price can say what the expense says: it has no more than the four decimals that are kept. */
  predicate Storable(x: real) {
    CloseTo(Round4(x), x)
  }

  predicate AlreadySaid(rows: Rows, e: ExpenseInput)
    requires YieldsPrice(e)
  {
    var k := LiveOf(rows, e.expense);
    k.Some? && k.value < |rows| && Matches(rows[k.value], e)
  }

  lemma AppendLive(rows: Rows, row: Price, expense: nat)
    requires row.expense == Some(expense) && Live(row)
    ensures LiveOf(rows + [row], expense) == Some(|rows|)
  {
  }

  /** With its only live row marked, the expense has none. */
  lemma MarkedHasNone(rows: Rows, expense: nat, mark: VoidMark)
    requires Valid(rows) && LiveOf(rows, expense).Some?
    ensures LiveOf(rows, expense).value < |rows|
    ensures LiveOf(Marked(rows, LiveOf(rows, expense).value, mark), expense).None?
  {
    LiveOfFinds(rows, expense);
    var k := LiveOf(rows, expense).value;
    var after := Marked(rows, k, mark);
    forall i | 0 <= i < |after|
      ensures !(after[i].expense == Some(expense) && Live(after[i]))
    {
      assert i < k ==> Exclusive(rows[i], rows[k]);
      assert k < i ==> Exclusive(rows[k], rows[i]);
    }
    LiveOfFinds(after, expense);
  }

  /**
   * After a sync an expense without breakdown has no live price, and one with it has a live price that matches it
   * exactly when it matched already or the unit price fits in four decimals.
   */
  lemma SyncLeavesAMatch(s: Store, e: ExpenseInput)
    requires Valid(s.rows)
    ensures var rows := Synced(s, e).rows;
      if YieldsPrice(e)
      then LiveOf(rows, e.expense).Some?
        && (AlreadySaid(rows, e) <==> AlreadySaid(s.rows, e) || Storable(e.unitPrice.value))
      else LiveOf(rows, e.expense).None?
  {
    LiveOfFinds(s.rows, e.expense);
    var existing := LiveOf(s.rows, e.expense);
    if existing.Some? {
      MarkedHasNone(s.rows, e.expense, VoidMark(s.now, e.user, NoLongerPriced));
      MarkedHasNone(s.rows, e.expense, VoidMark(s.now, e.user, Replaced));
    }
    if YieldsPrice(e) && !AlreadySaid(s.rows, e) {
      var before := if existing.Some?
        then Marked(s.rows, existing.value, VoidMark(s.now, e.user, Replaced)) else s.rows;
      AppendLive(before, DerivedRow(|before|, e, s.now), e.expense);
    }
  }

  /**
   * The same sync again changes nothing exactly when the price left by the first one matches, or there is to be none.
   */
  lemma SyncAgainChangesNothing(s: Store, e: ExpenseInput)
    requires Valid(s.rows)
    ensures Synced(Synced(s, e), e) == Synced(s, e) <==>
      (YieldsPrice(e) ==> AlreadySaid(s.rows, e) || Storable(e.unitPrice.value))
  {
    var t := Synced(s, e);
    SyncLeavesAMatch(s, e);
    WriteKeepsValid(s, e, LiveOf(s.rows, e.expense));
    if YieldsPrice(e) && !AlreadySaid(t.rows, e) {
      MarkedHasNone(t.rows, e.expense, VoidMark(t.now, e.user, Replaced));
      assert |Synced(t, e).rows| == |t.rows| + 1;
    }
  }

  /** The requests that carry an expense refuse a unit price of more than four decimals. */
  ghost predicate Receivable(e: ExpenseInput) {
    e.unitPrice.Some? ==> exists t :: e.unitPrice.value == Amount(t)
  }

  /** The table says of the expense what the expense says now. */
  ghost predicate UpToDate(rows: Rows, e: ExpenseInput) {
    if YieldsPrice(e) then AlreadySaid(rows, e) else LiveOf(rows, e.expense).None?
  }

  /** For every expense a request can carry, a sync brings the table up to date and the next one changes nothing. */
  lemma ReceivableSyncSettles(s: Store, e: ExpenseInput)
    requires Valid(s.rows) && Receivable(e)
    ensures UpToDate(Synced(s, e).rows, e) && Synced(Synced(s, e), e) == Synced(s, e)
  {
    SyncLeavesAMatch(s, e);
    SyncAgainChangesNothing(s, e);
    if e.unitPrice.Some? {
      var t :| e.unitPrice.value == Amount(t);
      TicksOfAmount(t);
    }
  }

  // ---------------------------------------------------------------- two syncs that read before either wrote

  /** The price left behind when both found row `k` and the first one replaced it or gave it up. */
  lemma AfterAnEarlierMark(s: Store, k: nat, second: ExpenseInput, mark: VoidMark)
    requires Valid(s.rows) && LiveOf(s.rows, second.expense) == Some(k)
    ensures k < |s.rows|
    ensures var t := s.(rows := Marked(s.rows, k, mark));
      var u := Written(t, second, Some(k));
      && (YieldsPrice(second) ==> (Matches(t.rows[k], second) <==> Matches(s.rows[k], second)))
      && (ToInsert(t.rows, second, Some(k)) ==>
            && LiveOf(u.rows, second.expense) == Some(|s.rows|)
            && |u.rows| == |s.rows| + 1 && u.rows[|s.rows|] == DerivedRow(|s.rows|, second, s.now))
      && (!ToInsert(t.rows, second, Some(k)) ==> LiveOf(u.rows, second.expense).None?)
  {
    LiveOfFinds(s.rows, second.expense);
    MarkedHasNone(s.rows, second.expense, mark);
    var t := s.(rows := Marked(s.rows, k, mark));
    var marked := MarkedFor(t, second, Some(k));
    var again := VoidMark(s.now, second.user, if YieldsPrice(second) then Replaced else NoLongerPriced);
    MarkedHasNone(s.rows, second.expense, again);
    assert Marked(t.rows, k, again) == Marked(s.rows, k, again);
    assert marked.rows == t.rows || marked.rows == Marked(t.rows, k, again);
    if ToInsert(t.rows, second, Some(k)) {
      AppendLive(marked.rows, DerivedRow(|s.rows|, second, s.now), second.expense);
    }
  }

  /** With the price of the first already in, the second may mark the row it read but never get its own price in. */
  lemma AfterAnEarlierInsert(s: Store, existing: Option<nat>, first: ExpenseInput, second: ExpenseInput)
    requires YieldsPrice(first) && first.expense == second.expense
    requires existing.Some? ==> existing.value < |s.rows| && s.rows[existing.value].expense == Some(second.expense)
    requires LiveOf(s.rows, first.expense).None?
    ensures var t := s.(rows := s.rows + [DerivedRow(|s.rows|, first, s.now)]);
      var u := Written(t, second, existing);
      |u.rows| == |t.rows| && LiveOf(u.rows, second.expense) == Some(|s.rows|) && u.rows[|s.rows|] == t.rows[|s.rows|]
  {
    var t := s.(rows := s.rows + [DerivedRow(|s.rows|, first, s.now)]);
    var marked := MarkedFor(t, second, existing);
    assert marked.rows[|s.rows|] == t.rows[|s.rows|];
    assert LiveOf(marked.rows, second.expense) == Some(|s.rows|);
  }

  /** What `second` finds written when it comes to write: nothing new, a mark, or the price of the other one. */
  datatype Overtaken = NotOvertaken | ByAMark | ByAPrice

  function OvertakenBy(s: Store, first: ExpenseInput): Overtaken {
    if YieldsPrice(first) then (if AlreadySaid(s.rows, first) then NotOvertaken else ByAPrice)
    else if LiveOf(s.rows, first.expense).Some? then ByAMark
    else NotOvertaken
  }

  /**
   * Two syncs of one expense that both read before either wrote. If the first put a price in, the second is dropped
   * without a word; if it only took the price away, the second puts its own unless it read that the price was
   * right; otherwise the second does what it would have done alone.
   */
  lemma SecondWriteIsDropped(s: Store, first: ExpenseInput, second: ExpenseInput)
    requires Valid(s.rows) && first.expense == second.expense
    ensures var existing := LiveOf(s.rows, first.expense);
      var u := Written(Written(s, first, existing), second, existing);
      match OvertakenBy(s, first)
      case ByAPrice =>
        LiveOf(u.rows, first.expense) == Some(|s.rows|) && |u.rows| == |s.rows| + 1
          && u.rows[|s.rows|] == DerivedRow(|s.rows|, first, s.now)
      case ByAMark =>
        if YieldsPrice(second) && !AlreadySaid(s.rows, second)
        then LiveOf(u.rows, first.expense) == Some(|s.rows|) && |u.rows| == |s.rows| + 1
          && u.rows[|s.rows|] == DerivedRow(|s.rows|, second, s.now)
        else LiveOf(u.rows, first.expense).None?
      case NotOvertaken => u == Synced(s, second)
  {
    var existing := LiveOf(s.rows, first.expense);
    LiveOfFinds(s.rows, first.expense);
    match OvertakenBy(s, first)
    case ByAPrice =>
      var marked := MarkedFor(s, first, existing);
      if existing.Some? {
        MarkedHasNone(s.rows, first.expense, VoidMark(s.now, first.user, Replaced));
      }
      AfterAnEarlierInsert(marked, existing, first, second);
    case ByAMark =>
      AfterAnEarlierMark(s, existing.value, second, VoidMark(s.now, first.user, NoLongerPriced));
    case NotOvertaken =>
  }

  /** Such a pair leaves the table saying what the second one says in exactly these cases. */
  lemma SecondIsUpToDateExactlyWhen(s: Store, first: ExpenseInput, second: ExpenseInput)
    requires Valid(s.rows) && first.expense == second.expense
    ensures var existing := LiveOf(s.rows, first.expense);
      UpToDate(Written(Written(s, first, existing), second, existing).rows, second) <==>
      match OvertakenBy(s, first)
      case ByAPrice => YieldsPrice(second) && Matches(DerivedRow(|s.rows|, first, s.now), second)
      case ByAMark => YieldsPrice(second) ==> !AlreadySaid(s.rows, second) && Storable(second.unitPrice.value)
      case NotOvertaken => YieldsPrice(second) ==> AlreadySaid(s.rows, second) || Storable(second.unitPrice.value)
  {
    SecondWriteIsDropped(s, first, second);
    SyncLeavesAMatch(s, second);
  }

  function Bought(unitPrice: real): ExpenseInput {
    ExpenseInput(0, Some(1), Some(1.0), Some(unitPrice), false, None, 0, None)
  }

  /** An expense saved at 1.00 and again at 2.00, both read before either is written: the ledger stays at 1.00. */
  lemma TheOlderPriceCanStay()
    ensures var s := Store([], 0, {1}, {});
      var u := Written(Written(s, Bought(1.0), None), Bought(2.0), None);
      && LiveOf(u.rows, 0) == Some(0) && |u.rows| == 1 && u.rows[0].price == 1.0
      && UpToDate(Synced(Synced(s, Bought(1.0)), Bought(2.0)).rows, Bought(2.0))
  {
    var s := Store([], 0, {1}, {});
    SecondWriteIsDropped(s, Bought(1.0), Bought(2.0));
    TicksOfAmount(10000);
    TicksOfAmount(20000);
    assert Amount(10000) == 1.0 && Amount(20000) == 2.0;
    StepKeepsHistory(State(s, []), Sync(Bought(1.0)));
    ReceivableSyncSettles(Synced(s, Bought(1.0)), Bought(2.0));
  }

  /** A sync leaves the prices of everything but its expense alone. */
  lemma SyncTouchesOnlyItsExpense(s: Store, e: ExpenseInput, i: nat)
    requires i < |s.rows| && s.rows[i].expense != Some(e.expense)
    ensures i < |Synced(s, e).rows| && Synced(s, e).rows[i] == s.rows[i]
  {
    LiveOfFinds(s.rows, e.expense);
  }

  /** Deleting an expense voids its prices and no other, and loses none. */
  lemma DeleteVoidsItsPrices(s: Store, expense: nat, user: Option<nat>)
    ensures var rows := ExpenseDeleted(s, expense, user).rows;
      && |rows| == |s.rows| && LiveOf(rows, expense).None?
      && forall i :: 0 <= i < |rows| && s.rows[i].expense != Some(expense) ==> rows[i] == s.rows[i]
  {
    LiveOfFinds(ExpenseDeleted(s, expense, user).rows, expense);
  }

  // ---------------------------------------------------------------- the service

  class Service {
    var rows: Rows
    var now: nat
    var materials: set<nat>
    var suppliers: set<nat>

    ghost function Table(): Store
      reads this
    {
      Store(rows, now, materials, suppliers)
    }

    constructor (materials: set<nat>, suppliers: set<nat>)
      ensures Table() == Store([], 0, materials, suppliers) && Valid(rows)
    {
      this.rows, this.now, this.materials, this.suppliers := [], 0, materials, suppliers;
    }

    method CreatePrice(p: NewPrice) returns (r: Result<nat, PriceError>)
      requires Valid(rows)
      modifies this
      ensures Table() == Created(old(Table()), p) && Valid(rows) && Continues(old(rows), rows)
      ensures r == match CreateError(old(Table()), p)
                   case Some(error) => Failure(error)
                   case None => Success(old(|rows|))
    {
      StepKeepsHistory(State(Table(), []), Create(p));
      if p.material !in materials {
        return Failure(MaterialNotFound);
      }
      if p.supplier.Some? && p.supplier.value !in suppliers {
        return Failure(SupplierNotFound);
      }
      if !p.terms.inDop && (p.terms.exchangeRate.None? || p.terms.exchangeRate.value == 0.0) {
        return Failure(MissingExchangeRate);
      }
      var net := NetUnitPrice(p.price, p.terms);
      if net.None? {
        return Failure(BadTerms);
      }
      var id := |rows|;
      var date := if p.date.Some? then p.date.value else now;
      rows := rows + [Price(id, p.material, p.supplier, Round4(p.price), p.terms.itbisIncluded, net.value, date, now,
        None, None)];
      return Success(id);
    }

    method VoidPrice(id: nat, user: nat, reason: string) returns (r: Result<nat, PriceError>)
      requires Valid(rows)
      modifies this`rows
      ensures Table() == Voided(old(Table()), id, user, reason) && Valid(rows) && Continues(old(rows), rows)
      ensures r == match VoidError(old(Table()), id) case Some(error) => Failure(error) case None => Success(id)
    {
      StepKeepsHistory(State(Table(), []), Void(id, user, reason));
      if id >= |rows| {
        return Failure(PriceNotFound);
      }
      if rows[id].voided.Some? {
        return Failure(AlreadyVoided);
      }
      MarkVoid(id, VoidMark(now, Some(user), Given(reason)));
      return Success(id);
    }

    method MarkVoid(id: nat, mark: VoidMark)
      requires id < |rows|
      modifies this`rows
      ensures rows == Marked(old(rows), id, mark)
    {
      rows := rows[id := rows[id].(voided := Some(mark))];
    }

    method FindLive(expense: nat) returns (found: Option<nat>)
      ensures found == LiveOf(rows, expense)
    {
      var i := |rows|;
      assert rows[..i] == rows;
      while i > 0
        invariant 0 <= i <= |rows|
        invariant LiveOf(rows, expense) == LiveOf(rows[..i], expense)
      {
        i := i - 1;
        assert rows[..i + 1][..i] == rows[..i];
        if rows[i].expense == Some(expense) && rows[i].voided.None? {
          return Some(i);
        }
      }
      return None;
    }

    method SyncFromExpense(e: ExpenseInput)
      requires Valid(rows)
      modifies this`rows
      ensures Table() == Synced(old(Table()), e) && Valid(rows) && Continues(old(rows), rows)
    {
      WriteKeepsValid(Table(), e, LiveOf(rows, e.expense));
      LiveOfFinds(rows, e.expense);
      var existing := FindLive(e.expense);
      if !YieldsPrice(e) {
        if existing.Some? {
          MarkVoid(existing.value, VoidMark(now, e.user, NoLongerPriced));
        }
        return;
      }
      if existing.Some? && Matches(rows[existing.value], e) {
        return;
      }
      if existing.Some? {
        MarkVoid(existing.value, VoidMark(now, e.user, Replaced));
      }
      SaveDerived(DerivedRow(|rows|, e, now));
    }

    /** The insert, whose unique violation is taken to mean that somebody else has synced the expense. */
    method SaveDerived(row: Price)
      requires row.expense.Some? && Live(row)
      modifies this`rows
      ensures rows == Inserted(old(rows), row)
    {
      var other := FindLive(row.expense.value);
      if other.None? {
        rows := rows + [row];
      }
    }

    method VoidByExpense(expense: nat, user: Option<nat>)
      requires Valid(rows)
      modifies this`rows
      ensures Table() == ExpenseDeleted(old(Table()), expense, user) && Valid(rows) && Continues(old(rows), rows)
    {
      DeleteKeepsValid(Table(), expense, user);
      ghost var before := rows;
      var mark := VoidMark(now, user, ExpenseGone);
      for i := 0 to |rows|
        invariant |rows| == |before|
        invariant forall k :: 0 <= k < i ==> rows[k] == VoidIf(before[k], expense, mark)
        invariant forall k :: i <= k < |rows| ==> rows[k] == before[k]
      {
        if rows[i].expense == Some(expense) && rows[i].voided.None? {
          MarkVoid(i, mark);
        }
      }
    }
  }
}
