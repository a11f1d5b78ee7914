/**
 * What each request does to the lines of a batch and to the ledger (stp-api/src/costs/price-imports.service.ts),
 * column by column: what was read, what a review corrects, what an approval writes.
 */
module ImportEffects {
  import opened Wrappers
  import opened Rounding
  import opened PriceSelection
  import opened PriceImports
  import PriceEffects
  import Ledger = MaterialPrices

  /** Nothing but the lines is other than it was. */
  ghost predicate OnlyLines(s: State, t: State) {
    t == s.(lines := t.lines)
  }

  /** Nothing but the status and the date of one batch is other than it was. */
  ghost predicate OnlyBatch(s: State, t: State, imp: nat) {
    && t == s.(imports := t.imports) && t.imports.Keys == s.imports.Keys
    && forall i :: i in s.imports && i != imp ==> t.imports[i] == s.imports[i]
  }

  // ---------------------------------------------------------------- reading

  /** A batch uploaded waits in the queue, of its supplier and without a date; every other stays. */
  lemma UploadDoes(s: State, supplier: Option<nat>)
    ensures var t := Step(s, UploadPdf(supplier));
      && t == s.(imports := t.imports, nextImport := s.nextImport + 1)
      && t.imports.Keys == s.imports.Keys + {s.nextImport}
      && t.imports[s.nextImport] == Import(Queued, supplier, None)
      && forall i :: i in s.imports && i != s.nextImport ==> t.imports[i] == s.imports[i]
  {
  }

  predicate IsEmpty(s: State, imp: nat) {
    forall l :: l in s.lines ==> s.lines[l].imp != imp
  }

  /** A batch is taken from the queue only, and goes back to it when it failed or nothing was read of it. */
  lemma QueueDoes(s: State, imp: nat)
    ensures var t, u := Step(s, StartProcess(imp)), Step(s, Retry(imp));
      && OnlyBatch(s, t, imp) && OnlyBatch(s, u, imp)
      && (imp in s.imports ==>
            var b := s.imports[imp];
            && t.imports[imp] == (if b.status == Queued then b.(status := Processing) else b)
            && u.imports[imp] ==
                 if b.status == Failed || (b.status == Review && IsEmpty(s, imp)) then b.(status := Queued) else b)
  {
  }

  /** What is answered to a retry, a correction and an approval: nothing, or the first of these that fails. */
  lemma WhatIsAnswered(s: State, imp: nat, l: nat, p: Patch)
    ensures RetryError(s, imp) ==
      if imp !in s.imports then Some(ImportNotFound)
      else if s.imports[imp].status == Failed || (s.imports[imp].status == Review && IsEmpty(s, imp)) then None
      else Some(NotRetryable)
    ensures var error := UpdateError(s, imp, l, p);
      && (error == None <==> MayCorrect(s, imp, l, p))
      && (error == Some(LineNotFound) <==> !IsOf(s, imp, l))
      && (error == Some(AlreadyApproved) <==> IsOf(s, imp, l) && s.lines[l].status == Approved)
      && (error == Some(UseApprove) <==>
            IsOf(s, imp, l) && s.lines[l].status != Approved && p.status == Some(Approved))
      && (error.Some? ==> error.value in {LineNotFound, AlreadyApproved, UseApprove, UnknownMaterial})
    ensures var error := ApproveError(s, imp);
      && (error == Some(ImportNotFound) <==> imp !in s.imports)
      && (error == None <==> imp in s.imports && (s.imports[imp].status == Review || s.imports[imp].status == Done))
      && (error.Some? ==> error.value in {ImportNotFound, NotReviewable})
  {
  }

  function ReadLines(r: Reading): seq<Extracted> {
    match r
    case ReadFailed => []
    case SavedThenFailed(xs) => xs
    case ReadOk(xs, _) => xs
  }

  lemma {:induction false} SavedDoes(s: State, imp: nat, xs: seq<Extracted>)
    ensures var t := LinesSaved(s, imp, xs);
      && t == s.(lines := t.lines, nextLine := s.nextLine + |xs|)
      && (forall l :: l in t.lines <==> l in s.lines || s.nextLine <= l < s.nextLine + |xs|)
      && (forall l :: l in s.lines && l < s.nextLine ==> t.lines[l] == s.lines[l])
      && forall k :: 0 <= k < |xs| ==>
           t.lines[s.nextLine + k] ==
             Line(s.nextLine + k, imp, xs[k].price, xs[k].terms, xs[k].material, Pending, None)
  {
    if xs != [] {
      SavedDoes(s, imp, xs[..|xs| - 1]);
      assert forall k :: 0 <= k < |xs| - 1 ==> xs[..|xs| - 1][k] == xs[k];
    }
  }

  /**
   * Reading comes to an end: what was read becomes pending lines of the batch, in order, with the price, the terms and
   * the safe match of each; the batch is to be reviewed, with the date of the document if it has one, or failed.
   */
  lemma EndDoes(s: State, imp: nat, r: Reading)
    requires Sound(s) && imp in s.imports && s.imports[imp].status == Processing
    ensures var t, xs, b := Step(s, EndProcess(imp, r)), ReadLines(r), s.imports[imp];
      && t == s.(imports := t.imports, lines := t.lines, nextLine := s.nextLine + |xs|)
      && t.imports == s.imports[imp :=
           if r.ReadOk? then
             b.(status := Review, documentDate := if r.documentDate.Some? then r.documentDate else b.documentDate)
           else b.(status := Failed)]
      && (forall l :: l in t.lines <==> l in s.lines || s.nextLine <= l < s.nextLine + |xs|)
      && (forall l :: l in s.lines ==> t.lines[l] == s.lines[l])
      && forall k :: 0 <= k < |xs| ==>
           t.lines[s.nextLine + k] ==
             Line(s.nextLine + k, imp, xs[k].price, xs[k].terms, xs[k].material, Pending, None)
  {
    SavedDoes(if r.ReadOk? then UnderReview(s, imp, r.documentDate) else WithStatus(s, imp, Failed), imp, ReadLines(r));
    forall l | l in s.lines
      ensures l < s.nextLine
    {
      assert LineOk(s, l);
    }
  }

  /** A reading that ends when nobody is reading the batch leaves everything as it was. */
  lemma LateEndDoesNothing(s: State, imp: nat, r: Reading)
    requires imp !in s.imports || s.imports[imp].status != Processing
    ensures Step(s, EndProcess(imp, r)) == s
  {
  }

  // ---------------------------------------------------------------- reviewing

  predicate IsOf(s: State, imp: nat, l: nat) {
    l in s.lines && s.lines[l].imp == imp
  }

  /** The line is of the batch and not approved, and neither is it to be; the material is known if one is given. */
  predicate MayCorrect(s: State, imp: nat, l: nat, p: Patch) {
    && IsOf(s, imp, l) && s.lines[l].status != Approved && p.status != Some(Approved)
    && (p.material.Some? && p.material.value.Some? ==> p.material.value.value in s.store.materials)
  }

  /**
   * A correction that is taken leaves in the line exactly what came in the request, a null material included, and the
   * rest of it as it was read; no other line changes, and a correction that is not taken changes nothing.
   */
  lemma UpdateDoes(s: State, imp: nat, l: nat, p: Patch)
    ensures var t := Step(s, Update(imp, l, p));
      if MayCorrect(s, imp, l, p) then
        var before := s.lines[l];
        && OnlyLines(s, t) && t.lines.Keys == s.lines.Keys
        && (forall m :: m in s.lines && m != l ==> t.lines[m] == s.lines[m])
        && var after := t.lines[l];
           && (if p.price.Some? then Some(after.price) == p.price else after.price == before.price)
           && (if p.terms.Some? then Some(after.terms) == p.terms else after.terms == before.terms)
           && (if p.material.Some? then Some(after.material) == p.material else after.material == before.material)
           && (if p.status.Some? then Some(after.status) == p.status else after.status == before.status)
           && after.id == before.id && after.imp == before.imp && after.createdPrice == before.createdPrice
      else t == s
  {
  }

  /** A line that is still pending takes the material made for it, which the catalogue has from then on. */
  lemma MakeMaterialDoes(s: State, imp: nat, l: nat, made: Option<nat>)
    ensures var t := Step(s, MakeMaterial(imp, l, made));
      if IsOf(s, imp, l) && s.lines[l].status == Pending && made.Some? then
        && t == s.(lines := t.lines, store := t.store) && t.lines.Keys == s.lines.Keys
        && t.lines[l] == s.lines[l].(material := made)
        && t.store == s.store.(materials := s.store.materials + {made.value})
        && forall m :: m in s.lines && m != l ==> t.lines[m] == s.lines[m]
      else t == s
  {
  }

  /**
   * Matching again gives a material exactly to the pending lines of the batch that have none and one safe match; one
   * chosen by hand, a discarded line, an approved one and those of other batches keep what they had.
   */
  lemma RematchDoes(s: State, imp: nat, safe: map<nat, nat>)
    requires Sound(s)
    ensures var t := Step(s, Rematch(imp, safe));
      && OnlyLines(s, t) && t.lines.Keys == s.lines.Keys
      && forall l :: l in s.lines ==>
           var before := s.lines[l];
           if before.imp == imp && before.status == Pending && before.material == None && l in safe
           then t.lines[l] == before.(material := Some(safe[l])) else t.lines[l] == before
  {
    forall l | l in s.lines
      ensures s.lines[l].id == l
    {
      assert LineOk(s, l);
    }
  }

  /** A batch that is deleted goes with its lines; its prices stay, and so does everything else. */
  lemma RemoveDoes(s: State, imp: nat)
    ensures var t := Step(s, Remove(imp));
      && t.store == s.store && t.log == s.log && t.nextImport == s.nextImport && t.nextLine == s.nextLine
      && imp !in t.imports
      && (forall i :: i in s.imports && i != imp ==> i in t.imports && t.imports[i] == s.imports[i])
      && (forall l :: l in t.lines <==> l in s.lines && s.lines[l].imp != imp)
      && (forall l :: l in t.lines ==> t.lines[l] == s.lines[l])
  {
  }

  // ---------------------------------------------------------------- approving

  /** The price made from the line: what the review left in it, of the supplier of the batch, for that day. */
  ghost predicate PriceSays(row: Price, s: State, l: nat, date: Option<nat>)
    requires l in s.lines
  {
    var line := s.lines[l];
    && Some(row.material) == line.material && row.price == Round4(line.price)
    && row.itbisIncluded == line.terms.itbisIncluded && Some(row.net) == NetUnitPrice(line.price, line.terms)
    && row.supplier == (if line.imp in s.imports then s.imports[line.imp].supplier else None)
    && row.date == (if date.Some? then date.value else s.store.now) && row.createdAt == s.store.now
    && row.expense == None && row.voided == None
  }

  /** The line is approved and points at a new price that says what it says; nothing else of it has changed. */
  ghost predicate TurnedIntoPrice(s: State, t: State, l: nat, date: Option<nat>)
    requires l in s.lines
  {
    && l in t.lines && t.lines[l].createdPrice.Some?
    && t.lines[l] == s.lines[l].(status := Approved, createdPrice := t.lines[l].createdPrice)
    && var k := t.lines[l].createdPrice.value;
       |s.store.rows| <= k < |t.store.rows| && PriceSays(t.store.rows[k], s, l, date)
  }

  ghost predicate RowsGrow(s: State, t: State) {
    && |s.store.rows| <= |t.store.rows| && t.store.rows[..|s.store.rows|] == s.store.rows
    && t.store == s.store.(rows := t.store.rows)
  }

  lemma LoadedDoes(s: State, t: State, l: nat, date: Option<nat>)
    requires l in s.lines && s.lines[l].id == l && RowsGrow(s, t) && l in t.lines
    ensures var supplier := SupplierOf(s, s.lines[l].imp);
      var u := ApproveLoaded(t, s.lines[l], supplier, date);
      && RowsGrow(t, u)
      && (if SkipOf(t.store, supplier, s.lines[l], date).None? then TurnedIntoPrice(s, u, l, date) else u == t)
      && (forall k :: 0 <= k < |t.store.rows| ==> u.store.rows[k] == t.store.rows[k])
  {
  }

  lemma {:induction false} RowsOnlyGrow(s: State, rows: seq<nat>, date: Option<nat>)
    ensures RowsGrow(s, ApproveRows(s, rows, date))
  {
    if rows != [] {
      RowsOnlyGrow(s, rows[..|rows| - 1], date);
    }
  }

  lemma PriceStays(s: State, t: State, u: State, l: nat, date: Option<nat>)
    requires l in s.lines && TurnedIntoPrice(s, t, l, date) && RowsGrow(t, u) && l in u.lines
      && u.lines[l] == t.lines[l]
    ensures TurnedIntoPrice(s, u, l, date)
  {
    var k := t.lines[l].createdPrice.value;
    assert u.store.rows[k] == u.store.rows[..|t.store.rows|][k] == t.store.rows[k];
  }

  ghost predicate Numbered(s: State) {
    forall l :: l in s.lines ==> s.lines[l].id == l
  }

  /** What the loop over `rows` has done to line `l`. */
  ghost predicate LineDone(s: State, rows: seq<nat>, date: Option<nat>, l: nat, t: State)
    requires l in s.lines
  {
    && l in t.lines
    && if l in rows && Skipped(s, s.store, l, date).None? then TurnedIntoPrice(s, t, l, date)
       else t.lines[l] == s.lines[l]
  }

  lemma AnothersTurn(s: State, rows: seq<nat>, m: nat, date: Option<nat>, l: nat, t: State)
    requires Numbered(s) && l in s.lines && m in s.lines && m != l && RowsGrow(s, t) && LineDone(s, rows, date, l, t)
    ensures LineDone(s, rows + [m], date, l, ApproveLoaded(t, s.lines[m], SupplierOf(s, s.lines[m].imp), date))
  {
    var u := ApproveLoaded(t, s.lines[m], SupplierOf(s, s.lines[m].imp), date);
    assert RowsGrow(t, u) && l in u.lines && u.lines[l] == t.lines[l];
    if TurnedIntoPrice(s, t, l, date) {
      PriceStays(s, t, u, l, date);
    }
  }

  lemma ItsTurn(s: State, rows: seq<nat>, date: Option<nat>, l: nat, t: State)
    requires Numbered(s) && l in s.lines && l !in rows && RowsGrow(s, t) && LineDone(s, rows, date, l, t)
    ensures LineDone(s, rows + [l], date, l, ApproveLoaded(t, s.lines[l], SupplierOf(s, s.lines[l].imp), date))
  {
    LoadedDoes(s, t, l, date);
  }

  lemma {:induction false} RowsDo(s: State, rows: seq<nat>, date: Option<nat>, l: nat)
    requires Numbered(s) && Distinct(rows) && l in s.lines
    ensures LineDone(s, rows, date, l, ApproveRows(s, rows, date))
  {
    if rows != [] {
      var n := |rows| - 1;
      var t := ApproveRows(s, rows[..n], date);
      RowsDo(s, rows[..n], date, l);
      RowsOnlyGrow(s, rows[..n], date);
      assert rows == rows[..n] + [rows[n]] && rows[n] !in rows[..n];
      if rows[n] == l {
        ItsTurn(s, rows[..n], date, l, t);
      } else if rows[n] in s.lines {
        AnothersTurn(s, rows[..n], rows[n], date, l, t);
      }
    }
  }

  /** Not approved yet, with a known material, and the ledger can compare its price. */
  predicate CanBePriced(s: State, l: nat)
    requires l in s.lines
  {
    var line, supplier := s.lines[l], SupplierOf(s, s.lines[l].imp);
    && line.status != Approved && line.material.Some? && line.material.value in s.store.materials
    && (supplier.None? || supplier.value in s.store.suppliers)
    && line.price >= 0.0 && 0.0 <= line.terms.discountPct < 100.0
    && (line.terms.inDop || (line.terms.exchangeRate.Some? && line.terms.exchangeRate.value > 0.0))
    && (line.terms.itbisIncluded ==> line.terms.itbisRate >= 0.0)
  }

  lemma SkippedExactlyWhen(s: State, l: nat, date: Option<nat>)
    requires l in s.lines
    ensures Skipped(s, s.store, l, date).None? <==> CanBePriced(s, l)
  {
    if s.lines[l].material.Some? {
      PriceEffects.WhyAPriceIsRefused(s.store, PriceOf(SupplierOf(s, s.lines[l].imp), s.lines[l], date));
    }
  }

  /** What the answer says of a line that is not turned into a price. */
  function WhyNot(s: State, l: nat, date: Option<nat>): SkipReason
    requires l in s.lines
  {
    var line := s.lines[l];
    if line.status == Approved then WasApproved
    else if line.material == None then NoMaterial
    else
      var price := PriceOf(SupplierOf(s, line.imp), line, date);
      var error := Ledger.CreateError(s.store, price);
      PriceRejected(if error.Some? then error.value else Ledger.BadTerms)
  }

  /** The answer of an approval names, in order, the lines it did not turn into prices, each with its reason. */
  lemma {:induction false} SkipsSay(s: State, rows: seq<nat>, date: Option<nat>)
    requires forall l :: l in rows ==> l in s.lines
    ensures forall skip :: skip in Skips(s, rows, date) <==>
      skip.line in rows && !CanBePriced(s, skip.line) && skip.reason == WhyNot(s, skip.line, date)
    ensures |Skips(s, rows, date)| <= |rows|
  {
    if rows != [] {
      var n := |rows| - 1;
      SkipsSay(s, rows[..n], date);
      assert rows == rows[..n] + [rows[n]] && rows[n] in rows;
      SkippedExactlyWhen(s, rows[n], date);
    }
  }

  /** The ids asked for that are not lines of the batch are answered so. */
  lemma {:induction false} UnknownSay(s: State, imp: nat, ids: seq<nat>)
    ensures forall skip :: skip in Unknown(s.lines, imp, ids) <==>
      skip.line in ids && !IsOf(s, imp, skip.line) && skip.reason == NotInThisImport
  {
    if ids != [] {
      UnknownSay(s, imp, ids[..|ids| - 1]);
      assert ids == ids[..|ids| - 1] + [ids[|ids| - 1]];
    }
  }

  /**
   * An approval of a batch under review, or done, turns into prices exactly the lines asked for that can be priced,
   * each into one for the day given or else that of the document; the other lines stay. The batch is to be reviewed
   * while it has a pending line, and done otherwise. On a batch that is not there yet nothing happens.
   */
  lemma ApproveDoes(s: State, imp: nat, rows: seq<nat>, date: Option<nat>)
    requires Sound(s) && Distinct(rows)
    ensures var t := Step(s, Approve(imp, rows, date));
      if imp in s.imports && (s.imports[imp].status == Review || s.imports[imp].status == Done) then
        var day := if date.Some? then date else s.imports[imp].documentDate;
        && t.lines.Keys == s.lines.Keys && RowsGrow(s, t)
        && (forall l :: l in s.lines ==>
              if l in rows && CanBePriced(s, l) then TurnedIntoPrice(s, t, l, day) else t.lines[l] == s.lines[l])
        && (forall i :: i in s.imports && i != imp ==> i in t.imports && t.imports[i] == s.imports[i])
        && imp in t.imports && t.imports[imp] == s.imports[imp].(status := t.imports[imp].status)
        && t.imports[imp].status ==
             (if exists l :: l in t.lines && t.lines[l].imp == imp && t.lines[l].status == Pending
              then Review else Done)
      else t == s
  {
    if ApproveError(s, imp).None? {
      var day := ApproveDate(s, imp, date);
      RowsKeepSound(s, rows, day);
      RowsOnlyGrow(s, rows, day);
      assert Numbered(s) by {
        forall l | l in s.lines
          ensures s.lines[l].id == l
        {
          assert LineOk(s, l);
        }
      }
      forall l | l in s.lines
        ensures var t := ApproveRows(s, rows, day);
          if l in rows && CanBePriced(s, l) then TurnedIntoPrice(s, t, l, day) else t.lines[l] == s.lines[l]
      {
        RowsDo(s, rows, day, l);
        SkippedExactlyWhen(s, l, day);
      }
      var t := ApproveRows(s, rows, day);
      forall l | l in s.lines && TurnedIntoPrice(s, t, l, day)
        ensures TurnedIntoPrice(s, Refreshed(t, imp), l, day)
      {
      }
    }
  }
}
