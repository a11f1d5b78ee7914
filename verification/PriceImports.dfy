/**
 * Reviewing the prices read from a supplier's quotation and approving them line by line
 * (stp-api/src/costs/price-imports.service.ts). Approving is the only way from a line to the ledger of prices.
 */
module PriceImports {
  import opened Wrappers
  import opened Rounding
  import opened PriceSelection
  import Ledger = MaterialPrices

  // ---------------------------------------------------------------- state

  datatype ImportStatus = Queued | Processing | Review | Failed | Done

  datatype LineStatus = Pending | Approved | Rejected

  datatype Import = Import(status: ImportStatus, supplier: Option<nat>, documentDate: Option<nat>)

  datatype Line = Line(
    id: nat, imp: nat, price: real, terms: Terms, material: Option<nat>, status: LineStatus, createdPrice: Option<nat>)

  /** What the reading of a PDF gives for one line; the material only if the match is safe. */
  datatype Extracted = Extracted(price: real, terms: Terms, material: Option<nat>)

  /** A price made from a line: `price` is its id in the ledger. */
  datatype Creation = Creation(line: nat, price: nat)

  /**
   * `log` and `gone` are kept for the statements: the prices made so far, and the approved lines whose import was
   * deleted.
   */
  datatype State = State(
    imports: map<nat, Import>,
    lines: map<nat, Line>,
    nextImport: nat,
    nextLine: nat,
    store: Ledger.Store,
    log: seq<Creation>,
    gone: set<nat>)

  datatype Reading =
    | ReadFailed
    | SavedThenFailed(lines: seq<Extracted>)
    | ReadOk(lines: seq<Extracted>, documentDate: Option<nat>)

  /** Only the fields that came in the request; an explicit null takes the material away. */
  datatype Patch = Patch(material: Option<Option<nat>>, price: Option<real>, terms: Option<Terms>,
    status: Option<LineStatus>)

  datatype ImportError =
    | ImportNotFound | LineNotFound | NotReviewable | NotRetryable | AlreadyApproved | UseApprove | UnknownMaterial
    | NotPending | MaterialRefused

  datatype SkipReason = NotInThisImport | WasApproved | NoMaterial | PriceRejected(error: Ledger.PriceError)

  datatype Skip = Skip(line: nat, reason: SkipReason)

  // ---------------------------------------------------------------- reading

  function Upload(s: State, supplier: Option<nat>): State {
    s.(imports := s.imports[s.nextImport := Import(Queued, supplier, None)], nextImport := s.nextImport + 1)
  }

  function WithStatus(s: State, imp: nat, status: ImportStatus): State
    requires imp in s.imports
  {
    s.(imports := s.imports[imp := s.imports[imp].(status := status)])
  }

  function ProcessStarted(s: State, imp: nat): State {
    if imp in s.imports && s.imports[imp].status == Queued then WithStatus(s, imp, Processing) else s
  }

  function LineSaved(s: State, imp: nat, x: Extracted): State {
    s.(lines := s.lines[s.nextLine := Line(s.nextLine, imp, x.price, x.terms, x.material, Pending, None)],
       nextLine := s.nextLine + 1)
  }

  function LinesSaved(s: State, imp: nat, xs: seq<Extracted>): State {
    if xs == [] then s else LineSaved(LinesSaved(s, imp, xs[..|xs| - 1]), imp, xs[|xs| - 1])
  }

  lemma {:induction false} LinesSavedKeepsImports(s: State, imp: nat, xs: seq<Extracted>)
    ensures LinesSaved(s, imp, xs).imports == s.imports
  {
    if xs != [] {
      LinesSavedKeepsImports(s, imp, xs[..|xs| - 1]);
    }
  }

  function ProcessEnded(s: State, imp: nat, r: Reading): State {
    if imp !in s.imports || s.imports[imp].status != Processing then s else Finished(s, imp, r)
  }

  /** What a worker leaves when it is done, whatever the status says by then. */
  function Finished(s: State, imp: nat, r: Reading): State
    requires imp in s.imports
  {
    match r
    case ReadFailed => WithStatus(s, imp, Failed)
    case SavedThenFailed(xs) => LinesSaved(WithStatus(s, imp, Failed), imp, xs)
    case ReadOk(xs, date) => LinesSaved(UnderReview(s, imp, date), imp, xs)
  }

  function UnderReview(s: State, imp: nat, date: Option<nat>): State
    requires imp in s.imports
  {
    var dated := if date.Some? then date else s.imports[imp].documentDate;
    s.(imports := s.imports[imp := s.imports[imp].(status := Review, documentDate := dated)])
  }

  predicate HasLines(s: State, imp: nat) {
    exists l :: l in s.lines && s.lines[l].imp == imp
  }

  function RetryError(s: State, imp: nat): Option<ImportError> {
    if imp !in s.imports then Some(ImportNotFound)
    else if s.imports[imp].status == Failed || (s.imports[imp].status == Review && !HasLines(s, imp)) then None
    else Some(NotRetryable)
  }

  function Retried(s: State, imp: nat): State {
    if RetryError(s, imp).None? then WithStatus(s, imp, Queued) else s
  }

  // ---------------------------------------------------------------- reviewing

  predicate IsLineOf(s: State, imp: nat, l: nat) {
    l in s.lines && s.lines[l].imp == imp
  }

  function WithLine(s: State, l: nat, line: Line): State {
    s.(lines := s.lines[l := line])
  }

  function UpdateError(s: State, imp: nat, l: nat, p: Patch): Option<ImportError> {
    if !IsLineOf(s, imp, l) then Some(LineNotFound)
    else if s.lines[l].status == Approved then Some(AlreadyApproved)
    else if p.status == Some(Approved) then Some(UseApprove)
    else if p.material.Some? && p.material.value.Some? && p.material.value.value !in s.store.materials
      then Some(UnknownMaterial)
    else None
  }

  function Patched(line: Line, p: Patch): Line {
    line.(material := if p.material.Some? then p.material.value else line.material,
          price := if p.price.Some? then p.price.value else line.price,
          terms := if p.terms.Some? then p.terms.value else line.terms,
          status := if p.status.Some? then p.status.value else line.status)
  }

  function LineUpdated(s: State, imp: nat, l: nat, p: Patch): State {
    if UpdateError(s, imp, l, p).Some? then s else WithLine(s, l, Patched(s.lines[l], p))
  }

  /** `createMaterialForLine`; `made` is the new material, or nothing if the catalogue refused it. */
  function MaterialCreated(s: State, imp: nat, l: nat, made: Option<nat>): State {
    if !IsLineOf(s, imp, l) || s.lines[l].status != Pending || made.None? then s
    else
      WithLine(s, l, s.lines[l].(material := made)).(store := s.store.(materials := s.store.materials + {made.value}))
  }

  /** `rematch`: pending lines without a material take the safe match, if there is one. */
  function Rematched(s: State, imp: nat, safe: map<nat, nat>): State {
    s.(lines := map l | l in s.lines :: MatchedLine(s.lines[l], imp, safe))
  }

  function MatchedLine(line: Line, imp: nat, safe: map<nat, nat>): Line {
    if line.imp == imp && line.status == Pending && line.material.None? && line.id in safe
    then line.(material := Some(safe[line.id])) else line
  }

  // ---------------------------------------------------------------- approving

  function PriceOf(supplier: Option<nat>, line: Line, date: Option<nat>): Ledger.NewPrice
    requires line.material.Some?
  {
    Ledger.NewPrice.NewPrice(line.material.value, supplier, line.price, line.terms, date)
  }

  function SupplierOf(s: State, imp: nat): Option<nat> {
    if imp in s.imports then s.imports[imp].supplier else None
  }

  function SkipOf(store: Ledger.Store, supplier: Option<nat>, line: Line, date: Option<nat>): Option<SkipReason> {
    if line.status == Approved then Some(WasApproved)
    else if line.material.None? then Some(NoMaterial)
    else
      match Ledger.CreateError(store, PriceOf(supplier, line, date))
      case Some(error) => Some(PriceRejected(error))
      case None => None
  }

  /**
   * One turn of the loop of `approve`, on the line and the supplier as they were loaded: create the price, then save
   * the line. If its import was deleted in the meantime the line cannot be saved, and the price stays.
   */
  function ApproveLoaded(s: State, line: Line, supplier: Option<nat>, date: Option<nat>): State {
    if SkipOf(s.store, supplier, line, date).Some? then s
    else
      var id := |s.store.rows|;
      var made := s.(store := Ledger.Created(s.store, PriceOf(supplier, line, date)),
                     log := s.log + [Creation(line.id, id)]);
      if line.id in s.lines then WithLine(made, line.id, line.(status := Approved, createdPrice := Some(id))) else made
  }

  /** The loop over the lines found; nothing else runs in between, so each is as it was loaded. */
  function ApproveRows(s: State, rows: seq<nat>, date: Option<nat>): State {
    if rows == [] then s
    else
      var t := ApproveRows(s, rows[..|rows| - 1], date);
      var l := rows[|rows| - 1];
      if l in s.lines then ApproveLoaded(t, s.lines[l], SupplierOf(s, s.lines[l].imp), date) else t
  }

  function ApproveError(s: State, imp: nat): Option<ImportError> {
    if imp !in s.imports then Some(ImportNotFound)
    else if s.imports[imp].status != Review && s.imports[imp].status != Done then Some(NotReviewable)
    else None
  }

  predicate AnyPending(s: State, imp: nat) {
    exists l :: l in s.lines && s.lines[l].imp == imp && s.lines[l].status == Pending
  }

  function Refreshed(s: State, imp: nat): State {
    if imp in s.imports then WithStatus(s, imp, if AnyPending(s, imp) then Review else Done) else s
  }

  /** `rows` are the lines asked for that belong to the import, each once, in the order the database gave them. */
  ghost predicate IsAnswer(s: State, imp: nat, ids: seq<nat>, rows: seq<nat>) {
    && (forall l :: l in rows <==> l in ids && IsLineOf(s, imp, l))
    && (forall i, j :: 0 <= i < j < |rows| ==> rows[i] != rows[j])
  }

  /** The answers for the ids that are not lines of the import. */
  function Unknown(lines: map<nat, Line>, imp: nat, ids: seq<nat>): seq<Skip> {
    if ids == [] then []
    else
      var before := Unknown(lines, imp, ids[..|ids| - 1]);
      var l := ids[|ids| - 1];
      if l in lines && lines[l].imp == imp then before else before + [Skip(l, NotInThisImport)]
  }

  function ApproveDate(s: State, imp: nat, date: Option<nat>): Option<nat> {
    if date.Some? || imp !in s.imports then date else s.imports[imp].documentDate
  }

  function ApprovedLines(s: State, imp: nat, rows: seq<nat>, date: Option<nat>): State {
    if ApproveError(s, imp).Some? then s else Refreshed(ApproveRows(s, rows, ApproveDate(s, imp, date)), imp)
  }

  /** Deleting an import deletes its lines; the prices stay. */
  function ImportRemoved(s: State, imp: nat): State {
    s.(imports := s.imports - {imp},
       lines := map l | l in s.lines && s.lines[l].imp != imp :: s.lines[l],
       gone := s.gone + set l | l in s.lines && s.lines[l].imp == imp && s.lines[l].status == Approved)
  }

  // ---------------------------------------------------------------- invariant

  /**
   * An approved line points at the price made from it, which says what the line says; no other line points at a price.
   */
  ghost predicate LineOk(s: State, l: nat)
    requires l in s.lines
  {
    var line := s.lines[l];
    && line.id == l && l < s.nextLine && line.imp in s.imports
    && (line.status == Approved <==> line.createdPrice.Some?)
    && (line.status == Approved ==>
          Creation(l, line.createdPrice.value) in s.log && Backed(s.store.rows, s.imports[line.imp].supplier, line))
  }

  /** The row says what the line says, the comparable price included, from the supplier of the import. */
  predicate Backed(rows: Ledger.Rows, supplier: Option<nat>, line: Line) {
    && line.createdPrice.Some? && line.createdPrice.value < |rows| && line.material.Some?
    && var row := rows[line.createdPrice.value];
    && row.material == line.material.value && row.supplier == supplier
    && row.price == Round4(line.price) && row.itbisIncluded == line.terms.itbisIncluded
    && Some(row.net) == NetUnitPrice(line.price, line.terms)
  }

  /** What holds however the requests overlap. */
  ghost predicate Sound(s: State) {
    && (forall l :: l in s.lines ==> LineOk(s, l))
    && (forall k :: 0 <= k < |s.log| ==> s.log[k].price < |s.store.rows| && s.log[k].line < s.nextLine)
    && (forall j, k :: 0 <= j < k < |s.log| ==> s.log[j].price != s.log[k].price)
    && (forall l :: l in s.gone ==> l !in s.lines && l < s.nextLine && Logged(s.log, l))
    && (forall i :: i in s.imports ==> i < s.nextImport)
  }

  /** A price in the log belongs to the line that points at it, or to one that is gone with its import. */
  ghost predicate EntryOk(s: State, c: Creation) {
    if c.line in s.lines then s.lines[c.line].createdPrice == Some(c.price) else c.line in s.gone
  }

  /** Every price made from a line is the price of that line, and of no other price. */
  ghost predicate OneToOne(s: State) {
    && (forall k :: 0 <= k < |s.log| ==> EntryOk(s, s.log[k]))
    && (forall j, k :: 0 <= j < k < |s.log| ==> s.log[j].line != s.log[k].line)
  }

  ghost predicate Inv(s: State) {
    Sound(s) && OneToOne(s)
  }

  ghost predicate Logged(log: seq<Creation>, l: nat) {
    exists k :: 0 <= k < |log| && log[k].line == l
  }

  /** Steps that touch no approved line, no price and no entry of the log. */
  ghost predicate Quiet(s: State, t: State) {
    && t.log == s.log && t.gone == s.gone && t.store.rows == s.store.rows && s.nextLine <= t.nextLine
    && (forall i :: i in s.imports ==> i in t.imports && t.imports[i].supplier == s.imports[i].supplier)
    && (forall i :: i in t.imports ==> i < t.nextImport)
    && (forall l :: l in s.lines ==> l in t.lines)
    && (forall l :: l in t.lines ==> QuietLine(s, t, l))
  }

  ghost predicate QuietLine(s: State, t: State, l: nat)
    requires l in t.lines
  {
    if l in s.lines then t.lines[l] == s.lines[l] || StaysUnapproved(s.lines[l], t.lines[l])
    else
      && s.nextLine <= l < t.nextLine && t.lines[l].id == l && t.lines[l].imp in t.imports
      && t.lines[l].status != Approved && t.lines[l].createdPrice.None?
  }

  predicate StaysUnapproved(before: Line, after: Line) {
    && before.status != Approved && after.status != Approved
    && after.id == before.id && after.imp == before.imp && after.createdPrice == before.createdPrice
  }

  lemma QuietKeepsSound(s: State, t: State)
    requires Sound(s) && Quiet(s, t)
    ensures Sound(t) && (OneToOne(t) <==> OneToOne(s))
  {
    forall l | l in t.lines
      ensures LineOk(t, l)
    {
      assert QuietLine(s, t, l);
      assert l in s.lines ==> LineOk(s, l);
    }
    forall k | 0 <= k < |t.log|
      ensures EntryOk(t, t.log[k]) <==> EntryOk(s, s.log[k])
    {
      var l := s.log[k].line;
      assert l in t.lines ==> QuietLine(s, t, l);
    }
    forall l | l in t.gone
      ensures l !in t.lines
    {
      assert l in t.lines ==> QuietLine(s, t, l);
    }
  }

  lemma {:induction false} LinesSavedIsQuiet(s: State, imp: nat, xs: seq<Extracted>)
    requires Sound(s) && imp in s.imports
    ensures Quiet(s, LinesSaved(s, imp, xs))
  {
    if xs != [] {
      var t := LinesSaved(s, imp, xs[..|xs| - 1]);
      LinesSavedIsQuiet(s, imp, xs[..|xs| - 1]);
      QuietKeepsSound(s, t);
      var u := LinesSaved(s, imp, xs);
      forall l | l in t.lines
        ensures l < t.nextLine
      {
        assert LineOk(t, l);
      }
      forall l | l in u.lines
        ensures QuietLine(s, u, l)
      {
        assert l in t.lines ==> QuietLine(s, t, l);
      }
    }
  }

  lemma FinishKeepsSound(s: State, imp: nat, r: Reading)
    requires Sound(s) && imp in s.imports
    ensures Sound(Finished(s, imp, r)) && (OneToOne(Finished(s, imp, r)) <==> OneToOne(s))
  {
    var t := match r case ReadOk(_, date) => UnderReview(s, imp, date) case _ => WithStatus(s, imp, Failed);
    QuietKeepsSound(s, t);
    if !r.ReadFailed? {
      LinesSavedIsQuiet(t, imp, r.lines);
      QuietKeepsSound(t, LinesSaved(t, imp, r.lines));
    }
  }

  lemma ProcessKeepsSound(s: State, imp: nat, r: Reading)
    requires Sound(s)
    ensures Sound(ProcessEnded(s, imp, r)) && (OneToOne(ProcessEnded(s, imp, r)) <==> OneToOne(s))
  {
    if imp in s.imports && s.imports[imp].status == Processing {
      FinishKeepsSound(s, imp, r);
    }
  }

  /** The table still knows the line that was loaded, and its supplier, if it knows it at all. */
  ghost predicate Carried(s: State, line: Line, supplier: Option<nat>) {
    && line.id < s.nextLine && (line.status == Approved <==> line.createdPrice.Some?)
    && (line.id in s.lines ==> s.lines[line.id].imp == line.imp && SupplierOf(s, line.imp) == supplier)
  }

  /** The table has the line, and nobody has approved it since. */
  predicate Fresh(s: State, line: Line) {
    line.id in s.lines && s.lines[line.id].status != Approved
  }

  lemma ApproveKeepsSound(s: State, line: Line, supplier: Option<nat>, date: Option<nat>)
    requires Sound(s) && Carried(s, line, supplier)
    ensures Sound(ApproveLoaded(s, line, supplier, date))
  {
    var t := ApproveLoaded(s, line, supplier, date);
    if SkipOf(s.store, supplier, line, date).None? {
      assert t.log[|s.log|] == Creation(line.id, |s.store.rows|);
      assert forall c :: c in s.log ==> c in t.log;
      forall m | m in t.lines
        ensures LineOk(t, m)
      {
        assert LineOk(s, m);
      }
      forall m | m in t.gone
        ensures Logged(t.log, m)
      {
        var k :| 0 <= k < |s.log| && s.log[k].line == m;
        assert t.log[k].line == m;
      }
    }
  }

  lemma OneEntryPerLine(s: State, j: nat, k: nat)
    requires OneToOne(s) && j < |s.log| && k < |s.log| && s.log[j].line == s.log[k].line
    ensures j == k
  {
  }

  lemma ApprovedTwice(s: State, line: Line, supplier: Option<nat>, date: Option<nat>)
    requires Sound(s) && SkipOf(s.store, supplier, line, date).None?
    ensures OneToOne(ApproveLoaded(s, line, supplier, date)) ==>
      OneToOne(s) && !Logged(s.log, line.id) && Fresh(s, line)
  {
    var t := ApproveLoaded(s, line, supplier, date);
    var n := |s.log|;
    if OneToOne(t) {
      forall k | 0 <= k < n
        ensures s.log[k].line != line.id && EntryOk(s, s.log[k])
      {
        assert t.log[k] == s.log[k] && EntryOk(t, t.log[k]);
        if t.log[k].line == line.id {
          OneEntryPerLine(t, k, n);
        }
      }
      forall j, k | 0 <= j < k < n
        ensures s.log[j].line != s.log[k].line
      {
        assert t.log[j].line != t.log[k].line;
      }
      assert EntryOk(t, t.log[n]);
      assert line.id in s.lines ==> LineOk(s, line.id);
    }
  }

  lemma ApprovedOnce(s: State, line: Line, supplier: Option<nat>, date: Option<nat>)
    requires Inv(s) && SkipOf(s.store, supplier, line, date).None? && Fresh(s, line)
    ensures OneToOne(ApproveLoaded(s, line, supplier, date))
  {
    var t := ApproveLoaded(s, line, supplier, date);
    assert LineOk(s, line.id);
    forall k | 0 <= k < |t.log|
      ensures EntryOk(t, t.log[k])
      ensures k < |s.log| ==> t.log[k].line != line.id
    {
      assert k < |s.log| ==> EntryOk(s, s.log[k]);
    }
  }

  /** Approving a line from a load keeps prices and lines one to one exactly when the load is fresh. */
  lemma ApproveIsOneToOneWhenFresh(s: State, line: Line, supplier: Option<nat>, date: Option<nat>)
    requires Sound(s) && SkipOf(s.store, supplier, line, date).None?
    ensures OneToOne(ApproveLoaded(s, line, supplier, date)) <==> OneToOne(s) && Fresh(s, line)
  {
    ApprovedTwice(s, line, supplier, date);
    if OneToOne(s) && Fresh(s, line) {
      ApprovedOnce(s, line, supplier, date);
    }
  }

  lemma ApproveTouchesOnlyItsLine(s: State, line: Line, supplier: Option<nat>, date: Option<nat>)
    ensures var t := ApproveLoaded(s, line, supplier, date);
      && t.imports == s.imports && t.nextImport == s.nextImport && t.nextLine == s.nextLine && t.gone == s.gone
      && t.lines.Keys == s.lines.Keys
      && t.store.materials == s.store.materials && t.store.suppliers == s.store.suppliers
      && forall m :: m in s.lines && m != line.id ==> m in t.lines && t.lines[m] == s.lines[m]
  {
  }

  /** What the loop leaves alone: before its turn comes a line is still as it was loaded. */
  ghost predicate RowsFrame(s: State, rows: seq<nat>, t: State) {
    && t.imports == s.imports && t.nextImport == s.nextImport && t.nextLine == s.nextLine && t.gone == s.gone
    && t.lines.Keys == s.lines.Keys && t.store.materials == s.store.materials && t.store.suppliers == s.store.suppliers
    && forall m :: m in s.lines && m !in rows ==> t.lines[m] == s.lines[m]
  }

  lemma {:induction false} RowsKeepSound(s: State, rows: seq<nat>, date: Option<nat>)
    requires Sound(s) && Distinct(rows)
    ensures var t := ApproveRows(s, rows, date);
      Sound(t) && (OneToOne(t) <==> OneToOne(s)) && RowsFrame(s, rows, t)
  {
    if rows != [] {
      var n := |rows| - 1;
      var t := ApproveRows(s, rows[..n], date);
      RowsKeepSound(s, rows[..n], date);
      assert rows[n] !in rows[..n];
      if rows[n] in s.lines {
        var line := s.lines[rows[n]];
        var supplier := SupplierOf(s, line.imp);
        assert LineOk(s, rows[n]);
        ApproveKeepsSound(t, line, supplier, date);
        ApproveTouchesOnlyItsLine(t, line, supplier, date);
        if SkipOf(t.store, supplier, line, date).None? {
          ApproveIsOneToOneWhenFresh(t, line, supplier, date);
        }
      }
    }
  }

  lemma RemoveKeepsSound(s: State, imp: nat)
    requires Sound(s)
    ensures Sound(ImportRemoved(s, imp)) && (OneToOne(ImportRemoved(s, imp)) <==> OneToOne(s))
  {
    var t := ImportRemoved(s, imp);
    forall l | l in t.lines
      ensures LineOk(t, l)
    {
      assert LineOk(s, l);
    }
    forall l | l in t.gone
      ensures l !in t.lines && l < t.nextLine && Logged(t.log, l)
    {
      if l in s.lines {
        assert LineOk(s, l);
        var c := Creation(l, s.lines[l].createdPrice.value);
        var k :| 0 <= k < |s.log| && s.log[k] == c;
        assert t.log[k].line == l;
      }
    }
    RemoveIsNeutral(s, imp);
  }

  lemma RemoveIsNeutral(s: State, imp: nat)
    requires Sound(s)
    ensures OneToOne(ImportRemoved(s, imp)) <==> OneToOne(s)
  {
    var t := ImportRemoved(s, imp);
    forall k | 0 <= k < |s.log|
      ensures EntryOk(s, s.log[k]) ==> EntryOk(t, t.log[k])
      ensures OneToOne(t) ==> EntryOk(s, s.log[k])
    {
      var l := s.log[k].line;
      if l in s.lines {
        assert LineOk(s, l);
        if OneToOne(t) && s.lines[l].status == Approved {
          var j :| 0 <= j < |s.log| && s.log[j] == Creation(l, s.lines[l].createdPrice.value);
          OneEntryPerLine(t, j, k);
        } else if OneToOne(t) {
          assert EntryOk(t, t.log[k]);
        }
      }
    }
  }

  // ---------------------------------------------------------------- runs

  datatype Op =
    | UploadPdf(supplier: Option<nat>)
    | StartProcess(imp: nat)
    | EndProcess(imp: nat, result: Reading)
    | Retry(imp: nat)
    | Update(imp: nat, line: nat, patch: Patch)
    | MakeMaterial(imp: nat, line: nat, made: Option<nat>)
    | Rematch(imp: nat, safe: map<nat, nat>)
    | Approve(imp: nat, rows: seq<nat>, date: Option<nat>)
    | Remove(imp: nat)

  predicate Distinct(rows: seq<nat>) {
    forall i, j :: 0 <= i < j < |rows| ==> rows[i] != rows[j]
  }

  function Step(s: State, op: Op): State {
    match op
    case UploadPdf(supplier) => Upload(s, supplier)
    case StartProcess(imp) => ProcessStarted(s, imp)
    case EndProcess(imp, r) => ProcessEnded(s, imp, r)
    case Retry(imp) => Retried(s, imp)
    case Update(imp, l, p) => LineUpdated(s, imp, l, p)
    case MakeMaterial(imp, l, made) => MaterialCreated(s, imp, l, made)
    case Rematch(imp, safe) => Rematched(s, imp, safe)
    case Approve(imp, rows, date) => if Distinct(rows) then ApprovedLines(s, imp, rows, date) else s
    case Remove(imp) => ImportRemoved(s, imp)
  }

  function Run(s: State, ops: seq<Op>): State
    decreases ops
  {
    if ops == [] then s else Run(Step(s, ops[0]), ops[1..])
  }

  /** The sum of the `created` counts answered along the run. */
  function CreatedCounts(s: State, ops: seq<Op>): int
    decreases ops
  {
    if ops == [] then 0 else CreatedCount(s, ops[0]) + CreatedCounts(Step(s, ops[0]), ops[1..])
  }

  /** How many lines an approval turned into prices. */
  function CreatedCount(s: State, op: Op): int {
    if op.Approve? && Distinct(op.rows) && ApproveError(s, op.imp).None?
    then Turned(s, op.rows, ApproveDate(s, op.imp, op.date)) else 0
  }

  /** Why the loop skips a line of the state it loaded, if it does. */
  function Skipped(s: State, store: Ledger.Store, l: nat, date: Option<nat>): Option<SkipReason>
    requires l in s.lines
  {
    SkipOf(store, SupplierOf(s, s.lines[l].imp), s.lines[l], date)
  }

  function Turned(s: State, rows: seq<nat>, date: Option<nat>): nat {
    if rows == [] then 0
    else
      var n := |rows| - 1;
      var t := ApproveRows(s, rows[..n], date);
      Turned(s, rows[..n], date) + (if rows[n] in s.lines && Skipped(s, t.store, rows[n], date).None? then 1 else 0)
  }

  lemma ApproveStepKeepsSound(s: State, imp: nat, rows: seq<nat>, date: Option<nat>)
    requires Sound(s)
    ensures var t := Step(s, Approve(imp, rows, date));
      Sound(t) && (OneToOne(t) <==> OneToOne(s))
  {
    if Distinct(rows) && ApproveError(s, imp).None? {
      RowsKeepSound(s, rows, ApproveDate(s, imp, date));
      var t := ApproveRows(s, rows, ApproveDate(s, imp, date));
      QuietKeepsSound(t, Refreshed(t, imp));
    }
  }

  lemma OtherStepsAreQuiet(s: State, op: Op)
    requires Sound(s) && !op.EndProcess? && !op.Approve? && !op.Remove?
    ensures Quiet(s, Step(s, op))
  {
    forall l | l in s.lines
      ensures s.lines[l].id == l
    {
      assert LineOk(s, l);
    }
  }

  /** Taken one at a time, no operation breaks the correspondence or mends it. */
  lemma StepKeepsSound(s: State, op: Op)
    requires Sound(s)
    ensures Sound(Step(s, op)) && (OneToOne(Step(s, op)) <==> OneToOne(s))
  {
    match op
    case EndProcess(imp, r) => ProcessKeepsSound(s, imp, r);
    case Approve(imp, rows, date) => ApproveStepKeepsSound(s, imp, rows, date);
    case Remove(imp) => RemoveKeepsSound(s, imp);
    case _ =>
      OtherStepsAreQuiet(s, op);
      QuietKeepsSound(s, Step(s, op));
  }

  lemma {:induction false} RunKeepsInv(s: State, ops: seq<Op>)
    requires Inv(s)
    ensures Inv(Run(s, ops))
    decreases ops
  {
    if ops != [] {
      StepKeepsSound(s, ops[0]);
      RunKeepsInv(Step(s, ops[0]), ops[1..]);
    }
  }

  function Start(materials: set<nat>, suppliers: set<nat>): State {
    State(map[], map[], 0, 0, Ledger.Store.Store([], 0, materials, suppliers), [], {})
  }

  // ---------------------------------------------------------------- lines and prices, one to one

  function ApprovedIds(s: State): set<nat> {
    set l | l in s.lines && s.lines[l].status == Approved
  }

  lemma PricesDiffer(s: State, l: nat, m: nat)
    requires Inv(s) && l in ApprovedIds(s) && m in ApprovedIds(s) && l != m
    ensures s.lines[l].createdPrice != s.lines[m].createdPrice
  {
    assert LineOk(s, l) && LineOk(s, m);
    var j :| 0 <= j < |s.log| && s.log[j] == Creation(l, s.lines[l].createdPrice.value);
    var k :| 0 <= k < |s.log| && s.log[k] == Creation(m, s.lines[m].createdPrice.value);
    assert j < k ==> s.log[j].price != s.log[k].price;
    assert k < j ==> s.log[k].price != s.log[j].price;
  }

  /**
   * In any run an approved line has a price of its own that says what the line says, and every price made has one
   * line.
   */
  lemma LinesAndPricesCorrespond(materials: set<nat>, suppliers: set<nat>, ops: seq<Op>)
    ensures var s := Run(Start(materials, suppliers), ops);
      && (forall l :: l in s.lines && s.lines[l].status == Approved ==>
            Backed(s.store.rows, SupplierOf(s, s.lines[l].imp), s.lines[l]))
      && (forall l, m :: l in ApprovedIds(s) && m in ApprovedIds(s) && l != m ==>
            s.lines[l].createdPrice != s.lines[m].createdPrice)
      && (forall k :: 0 <= k < |s.log| && s.log[k].line in s.lines ==>
            s.lines[s.log[k].line].createdPrice == Some(s.log[k].price))
      && (forall k :: 0 <= k < |s.log| && s.log[k].line !in s.lines ==> s.log[k].line in s.gone)
  {
    RunKeepsInv(Start(materials, suppliers), ops);
    var s := Run(Start(materials, suppliers), ops);
    forall l | l in s.lines && s.lines[l].status == Approved
      ensures Backed(s.store.rows, SupplierOf(s, s.lines[l].imp), s.lines[l])
    {
      assert LineOk(s, l);
    }
    forall l, m | l in ApprovedIds(s) && m in ApprovedIds(s) && l != m
      ensures s.lines[l].createdPrice != s.lines[m].createdPrice
    {
      PricesDiffer(s, l, m);
    }
    forall k | 0 <= k < |s.log|
      ensures EntryOk(s, s.log[k])
    {
    }
  }

  lemma {:induction false} RowsKeepApproved(s: State, rows: seq<nat>, date: Option<nat>, l: nat)
    requires Inv(s) && Distinct(rows) && l in s.lines && s.lines[l].status == Approved
    ensures l in ApproveRows(s, rows, date).lines && ApproveRows(s, rows, date).lines[l] == s.lines[l]
  {
    if rows != [] {
      var n := |rows| - 1;
      RowsKeepApproved(s, rows[..n], date, l);
      if rows[n] in s.lines {
        var line := s.lines[rows[n]];
        assert LineOk(s, rows[n]);
        ApproveTouchesOnlyItsLine(ApproveRows(s, rows[..n], date), line, SupplierOf(s, line.imp), date);
      }
    }
  }

  lemma StepKeepsApproved(s: State, op: Op, l: nat)
    requires Inv(s) && l in s.lines && s.lines[l].status == Approved
    ensures var t := Step(s, op);
      if l in t.lines then t.lines[l] == s.lines[l] else l in t.gone
  {
    match op
    case EndProcess(imp, r) =>
      assert LineOk(s, l);
      EndKeepsLine(s, imp, r, l);
    case Approve(imp, rows, date) =>
      if Distinct(rows) && ApproveError(s, imp).None? {
        RowsKeepApproved(s, rows, ApproveDate(s, imp, date), l);
      }
    case _ =>
  }

  lemma FinishKeepsLine(s: State, imp: nat, r: Reading, l: nat)
    requires imp in s.imports && l in s.lines && l < s.nextLine
    ensures l in Finished(s, imp, r).lines && Finished(s, imp, r).lines[l] == s.lines[l]
  {
    match r
    case ReadFailed =>
    case SavedThenFailed(xs) => SavedKeepLine(WithStatus(s, imp, Failed), imp, xs, l);
    case ReadOk(xs, date) => SavedKeepLine(UnderReview(s, imp, date), imp, xs, l);
  }

  lemma EndKeepsLine(s: State, imp: nat, r: Reading, l: nat)
    requires l in s.lines && l < s.nextLine
    ensures l in ProcessEnded(s, imp, r).lines && ProcessEnded(s, imp, r).lines[l] == s.lines[l]
  {
    if imp in s.imports && s.imports[imp].status == Processing {
      FinishKeepsLine(s, imp, r, l);
    }
  }

  lemma {:induction false} SavedKeepLine(s: State, imp: nat, xs: seq<Extracted>, l: nat)
    requires l in s.lines && l < s.nextLine
    ensures var t := LinesSaved(s, imp, xs);
      l in t.lines && t.lines[l] == s.lines[l] && l < t.nextLine
  {
    if xs != [] {
      SavedKeepLine(s, imp, xs[..|xs| - 1], l);
    }
  }

  lemma GoneStaysGone(s: State, op: Op)
    requires Inv(s)
    ensures s.gone <= Step(s, op).gone
  {
    match op
    case EndProcess(imp, r) => ProcessKeepsGone(s, imp, r);
    case Approve(imp, rows, date) =>
      if Distinct(rows) && ApproveError(s, imp).None? {
        RowsKeepSound(s, rows, ApproveDate(s, imp, date));
      }
    case _ =>
  }

  lemma FinishKeepsGone(s: State, imp: nat, r: Reading)
    requires imp in s.imports
    ensures Finished(s, imp, r).gone == s.gone && Finished(s, imp, r).log == s.log
  {
    match r
    case ReadFailed =>
    case SavedThenFailed(xs) => SavedKeepsLog(WithStatus(s, imp, Failed), imp, xs);
    case ReadOk(xs, date) => SavedKeepsLog(UnderReview(s, imp, date), imp, xs);
  }

  lemma ProcessKeepsGone(s: State, imp: nat, r: Reading)
    requires Inv(s)
    ensures ProcessEnded(s, imp, r).gone == s.gone && ProcessEnded(s, imp, r).log == s.log
  {
    if imp in s.imports && s.imports[imp].status == Processing {
      FinishKeepsGone(s, imp, r);
    }
  }

  lemma {:induction false} SavedKeepsLog(s: State, imp: nat, xs: seq<Extracted>)
    ensures LinesSaved(s, imp, xs).gone == s.gone && LinesSaved(s, imp, xs).log == s.log
  {
    if xs != [] {
      SavedKeepsLog(s, imp, xs[..|xs| - 1]);
    }
  }

  /** Once approved a line never changes: at the end of any run it is as it was, or gone with its import. */
  lemma {:induction false} ApprovedLinesNeverChange(s: State, ops: seq<Op>, l: nat)
    requires Inv(s) && (l in s.lines ==> s.lines[l].status == Approved) && (l !in s.lines ==> l in s.gone)
    ensures var t := Run(s, ops);
      if l in t.lines then l in s.lines && t.lines[l] == s.lines[l] else l in t.gone
    decreases ops
  {
    if ops != [] {
      StepKeepsSound(s, ops[0]);
      GoneStaysGone(s, ops[0]);
      var t := Step(s, ops[0]);
      if l in s.lines {
        StepKeepsApproved(s, ops[0], l);
      } else {
        assert l in t.gone;
      }
      ApprovedLinesNeverChange(t, ops[1..], l);
    }
  }

  // ---------------------------------------------------------------- the counts

  /** The lines the loop skips, in order, each with its reason. */
  function Skips(s: State, rows: seq<nat>, date: Option<nat>): seq<Skip> {
    if rows == [] then []
    else
      var before := Skips(s, rows[..|rows| - 1], date);
      var l := rows[|rows| - 1];
      if l in s.lines && Skipped(s, s.store, l, date).Some?
      then before + [Skip(l, Skipped(s, s.store, l, date).value)] else before
  }

  /** The line whose turn comes is in the table, and the ledger judges it as it did before the loop. */
  lemma StoreStays(s: State, rows: seq<nat>, date: Option<nat>, i: nat)
    requires Sound(s) && Distinct(rows) && i < |rows| && rows[i] in s.lines
    ensures var t := ApproveRows(s, rows[..i], date);
      && t.imports == s.imports && rows[i] in t.lines && s.lines[rows[i]].id == rows[i]
      && Skipped(s, t.store, rows[i], date) == Skipped(s, s.store, rows[i], date)
  {
    RowsKeepSound(s, rows[..i], date);
    assert LineOk(s, rows[i]);
  }

  lemma {:induction false} TurnedGrowsTheLog(s: State, rows: seq<nat>, date: Option<nat>)
    ensures |ApproveRows(s, rows, date).log| == |s.log| + Turned(s, rows, date)
  {
    if rows != [] {
      TurnedGrowsTheLog(s, rows[..|rows| - 1], date);
    }
  }

  lemma StepGrowsTheLog(s: State, op: Op)
    requires Inv(s)
    ensures |Step(s, op).log| == |s.log| + CreatedCount(s, op)
  {
    match op
    case EndProcess(imp, r) => ProcessKeepsGone(s, imp, r);
    case Approve(imp, rows, date) => TurnedGrowsTheLog(s, rows, ApproveDate(s, imp, date));
    case _ =>
  }

  lemma {:induction false} LogGrowsByTheCounts(s: State, ops: seq<Op>)
    requires Inv(s)
    ensures |Run(s, ops).log| == |s.log| + CreatedCounts(s, ops)
    decreases ops
  {
    if ops != [] {
      StepKeepsSound(s, ops[0]);
      StepGrowsTheLog(s, ops[0]);
      LogGrowsByTheCounts(Step(s, ops[0]), ops[1..]);
    }
  }

  lemma {:induction false} DistinctLinesFill(log: seq<Creation>, ids: set<nat>)
    requires forall j, k :: 0 <= j < k < |log| ==> log[j].line != log[k].line
    requires forall l :: l in ids <==> Logged(log, l)
    ensures |ids| == |log|
  {
    if log == [] {
      assert forall l :: l in ids ==> Logged(log, l);
      assert ids == {};
    } else {
      var n := |log| - 1;
      assert Logged(log, log[n].line);
      forall l
        ensures l in ids - {log[n].line} <==> Logged(log[..n], l)
      {
        if l in ids - {log[n].line} {
          var k :| 0 <= k < |log| && log[k].line == l;
          assert log[..n][k].line == l;
        }
        if Logged(log[..n], l) {
          var k :| 0 <= k < |log[..n]| && log[..n][k].line == l;
          assert log[k].line == l;
          assert Logged(log, l);
        }
      }
      DistinctLinesFill(log[..n], ids - {log[n].line});
    }
  }

  /** Over any run the `created` counts add up to the approved lines, those gone with their import included. */
  lemma CountsAddUp(materials: set<nat>, suppliers: set<nat>, ops: seq<Op>)
    ensures var s := Run(Start(materials, suppliers), ops);
      CreatedCounts(Start(materials, suppliers), ops) == |ApprovedIds(s)| + |s.gone|
  {
    var start := Start(materials, suppliers);
    var s := Run(start, ops);
    RunKeepsInv(start, ops);
    LogGrowsByTheCounts(start, ops);
    var ids := ApprovedIds(s) + s.gone;
    forall l
      ensures l in ids <==> Logged(s.log, l)
    {
      LoggedMeansApproved(s, l);
    }
    DistinctLinesFill(s.log, ids);
    assert ApprovedIds(s) !! s.gone;
    assert |ids| == |ApprovedIds(s)| + |s.gone|;
  }

  lemma LoggedMeansApproved(s: State, l: nat)
    requires Inv(s)
    ensures Logged(s.log, l) <==> l in ApprovedIds(s) || l in s.gone
  {
    if l in ApprovedIds(s) {
      assert LineOk(s, l);
      var k :| 0 <= k < |s.log| && s.log[k] == Creation(l, s.lines[l].createdPrice.value);
      assert s.log[k].line == l;
    }
    if Logged(s.log, l) {
      var k :| 0 <= k < |s.log| && s.log[k].line == l;
      assert EntryOk(s, s.log[k]);
      assert l in s.lines ==> LineOk(s, l);
    }
  }

  // ---------------------------------------------------------------- the status of the batch

  /** Right after an approval the batch is done exactly when it has no pending line. */
  lemma DoneRightAfterApprove(s: State, imp: nat, rows: seq<nat>, date: Option<nat>)
    requires Inv(s) && Distinct(rows) && ApproveError(s, imp).None?
    ensures var t := Step(s, Approve(imp, rows, date));
      imp in t.imports && (t.imports[imp].status == Done <==> !AnyPending(t, imp))
  {
    RowsKeepSound(s, rows, ApproveDate(s, imp, date));
    var t := ApproveRows(s, rows, ApproveDate(s, imp, date));
    assert Refreshed(t, imp).lines == t.lines;
  }

  /** Done means that nothing is pending. */
  predicate StatusTells(s: State, imp: nat)
    requires imp in s.imports
  {
    s.imports[imp].status == Done <==> !AnyPending(s, imp)
  }

  predicate OnlyPending(s: State, imp: nat, l: nat) {
    && IsLineOf(s, imp, l) && s.lines[l].status == Pending
    && forall m :: m in s.lines && s.lines[m].imp == imp && m != l ==> s.lines[m].status != Pending
  }

  /** Discards the last pending line of a batch that is not done, or reopens a line of one that is. */
  predicate OutrunsTheStatus(s: State, imp: nat, l: nat, p: Patch)
    requires imp in s.imports
  {
    if s.imports[imp].status == Done then p.status == Some(Pending)
      else p.status == Some(Rejected) && OnlyPending(s, imp, l)
  }

  /** An update does not refresh the status of the batch, which goes on telling exactly unless the update outruns it. */
  lemma UpdateKeepsTheStatus(s: State, imp: nat, l: nat, p: Patch)
    requires imp in s.imports && StatusTells(s, imp) && UpdateError(s, imp, l, p).None?
    ensures StatusTells(Step(s, Update(imp, l, p)), imp) <==> !OutrunsTheStatus(s, imp, l, p)
  {
    var t := Step(s, Update(imp, l, p));
    var after := t.lines[l];
    assert t.lines[l].imp == imp && (after.status == Pending ==> AnyPending(t, imp));
    if m :| IsLineOf(s, imp, m) && m != l && s.lines[m].status == Pending {
      assert t.lines[m] == s.lines[m];
      assert AnyPending(t, imp) && AnyPending(s, imp);
    } else {
      assert forall m :: m in t.lines && t.lines[m].imp == imp && m != l ==>
        IsLineOf(s, imp, m) && t.lines[m].status != Pending;
      assert AnyPending(s, imp) <==> s.lines[l].status == Pending;
      assert AnyPending(t, imp) <==> after.status == Pending;
    }
  }

  /** Both are reached: a batch left under review with nothing pending, and a done one with a pending line. */
  lemma StatusCanBeOutrun()
    ensures exists ops ::
      var s := Run(Start({1}, {}), ops); 0 in s.imports && s.imports[0].status == Review && !AnyPending(s, 0)
    ensures exists ops ::
      var s := Run(Start({1}, {}), ops); 0 in s.imports && s.imports[0].status == Done && AnyPending(s, 0)
  {
    var ops := Discarding();
    var s := Run(Start({1}, {}), ops);
    RunLast(Start({1}, {}), ops, Approve(0, [], None));
    var done := ops + [Approve(0, [], None)];
    var reopen := Update(0, 0, Patch(None, None, None, Some(Pending)));
    RunLast(Start({1}, {}), done, reopen);
    var t := Run(Start({1}, {}), done + [reopen]);
    assert t.lines[0].imp == 0 && t.lines[0].status == Pending;
  }

  lemma {:induction false} RunLast(s: State, ops: seq<Op>, op: Op)
    ensures Run(s, ops + [op]) == Step(Run(s, ops), op)
    decreases ops
  {
    if ops == [] {
      assert ops + [op] == [op];
      assert Run(s, [op]) == Run(Step(s, op), []);
    } else {
      assert (ops + [op])[1..] == ops[1..] + [op];
      RunLast(Step(s, ops[0]), ops[1..], op);
    }
  }

  /** An import of one line of material 1, in DOP. */
  function OneLine(status: LineStatus): Line {
    Line(0, 0, 3.0, Terms(true, None, false, 18.0, 0.0), Some(1), status, None)
  }

  lemma Reviewing() returns (ops: seq<Op>)
    ensures var start := Start({1}, {});
      Run(start, ops) ==
        start.(imports := map[0 := Import(Review, None, None)], lines := map[0 := OneLine(Pending)],
               nextImport := 1, nextLine := 1)
  {
    var start := Start({1}, {});
    var x := Extracted(3.0, Terms(true, None, false, 18.0, 0.0), Some(1));
    ops := [UploadPdf(None)];
    RunLast(start, [], UploadPdf(None));
    RunLast(start, ops, StartProcess(0));
    ops := ops + [StartProcess(0)];
    assert Run(start, ops) == start.(imports := map[0 := Import(Processing, None, None)], nextImport := 1);
    RunLast(start, ops, EndProcess(0, ReadOk([x], None)));
    ops := ops + [EndProcess(0, ReadOk([x], None))];
    var t := UnderReview(start.(imports := map[0 := Import(Processing, None, None)], nextImport := 1), 0, None);
    assert LinesSaved(t, 0, [x]) == LineSaved(t, 0, x) by {
      assert [x][..0] == [] && LinesSaved(t, 0, []) == t;
    }
  }

  /** ... whose line is then discarded by hand. */
  lemma Discarding() returns (ops: seq<Op>)
    ensures var start := Start({1}, {});
      Run(start, ops) ==
        start.(imports := map[0 := Import(Review, None, None)], lines := map[0 := OneLine(Rejected)],
               nextImport := 1, nextLine := 1)
  {
    ops := Reviewing();
    var discard := Update(0, 0, Patch(None, None, None, Some(Rejected)));
    RunLast(Start({1}, {}), ops, discard);
    ops := ops + [discard];
  }

  // ---------------------------------------------------------------- which lines are approved

  lemma {:induction false} ApprovedExactly(s: State, rows: seq<nat>, date: Option<nat>, l: nat)
    requires Sound(s) && Distinct(rows) && l in rows && l in s.lines
    ensures var t := ApproveRows(s, rows, date);
      && l in t.lines
      && if Skipped(s, s.store, l, date).None? then t.lines[l].status == Approved else t.lines[l] == s.lines[l]
  {
    var n := |rows| - 1;
    var t := ApproveRows(s, rows[..n], date);
    RowsKeepSound(s, rows[..n], date);
    assert LineOk(s, l);
    if rows[n] == l {
      assert l !in rows[..n];
      assert t.lines[l] == s.lines[l];
    } else {
      assert l in rows[..n];
      ApprovedExactly(s, rows[..n], date, l);
      if rows[n] in s.lines {
        assert LineOk(s, rows[n]);
      }
    }
  }

  /**
   * A line that is asked for and not approved yet is approved exactly when it has a material and the ledger takes its
   * price: a line discarded by hand no less than a pending one.
   */
  lemma ApprovalIgnoresDiscards(s: State, imp: nat, rows: seq<nat>, date: Option<nat>, l: nat)
    requires Inv(s) && ApproveError(s, imp).None? && Distinct(rows) && l in rows
    requires IsLineOf(s, imp, l) && s.lines[l].status != Approved
    ensures var t := Step(s, Approve(imp, rows, date));
      && l in t.lines
      && (t.lines[l].status == Approved <==>
            && s.lines[l].material.Some?
            && Ledger.CreateError(s.store,
                 PriceOf(s.imports[imp].supplier, s.lines[l], ApproveDate(s, imp, date))).None?)
      && (t.lines[l].status != Approved ==> t.lines[l] == s.lines[l])
  {
    ApprovedExactly(s, rows, ApproveDate(s, imp, date), l);
  }

  /** Such a state is reached, and the discarded line approved. */
  lemma DiscardedLineIsApproved()
    ensures exists ops :: var s, t := Run(Start({1}, {}), ops), Run(Start({1}, {}), ops + [Approve(0, [0], None)]);
      0 in s.lines && s.lines[0].status == Rejected && 0 in t.lines && t.lines[0].status == Approved
  {
    var ops := Discarding();
    var s := Run(Start({1}, {}), ops);
    RunLast(Start({1}, {}), ops, Approve(0, [0], None));
    RunKeepsInv(Start({1}, {}), ops);
    PlainLineIsPriced(s.store, Rejected);
    ApprovalIgnoresDiscards(s, 0, [0], None, 0);
  }

  lemma PlainLineIsPriced(store: Ledger.Store, status: LineStatus)
    requires 1 in store.materials
    ensures Ledger.CreateError(store, PriceOf(None, OneLine(status), None)).None?
  {
    var t := Terms(true, None, false, 18.0, 0.0);
    assert Exchange(t) == 1.0 && TaxFactor(t) == 1.0;
    assert Priceable(3.0, t);
  }

  // ---------------------------------------------------------------- reading again

  function LinesOf(s: State, imp: nat): set<nat> {
    set l | l in s.lines && s.lines[l].imp == imp
  }

  lemma OneMoreLine(s: State, imp: nat, x: Extracted)
    requires forall l :: l in s.lines ==> l < s.nextLine
    ensures |LinesOf(LineSaved(s, imp, x), imp)| == |LinesOf(s, imp)| + 1
  {
    assert LinesOf(LineSaved(s, imp, x), imp) == LinesOf(s, imp) + {s.nextLine};
  }

  lemma {:induction false} SavedLinesAreNew(s: State, imp: nat, xs: seq<Extracted>)
    requires forall l :: l in s.lines ==> l < s.nextLine
    ensures var t := LinesSaved(s, imp, xs);
      |LinesOf(t, imp)| == |LinesOf(s, imp)| + |xs| && forall l :: l in t.lines ==> l < t.nextLine
  {
    if xs != [] {
      SavedLinesAreNew(s, imp, xs[..|xs| - 1]);
      OneMoreLine(LinesSaved(s, imp, xs[..|xs| - 1]), imp, xs[|xs| - 1]);
    }
  }

  /**
   * A batch that is read again keeps the lines of the reading that failed: afterwards it has those of one reading
   * exactly when the failure came before any line was saved.
   */
  lemma RetryAddsToWhatWasThere(s: State, imp: nat, xs: seq<Extracted>, date: Option<nat>)
    requires Sound(s) && RetryError(s, imp).None?
    ensures var t := ProcessEnded(ProcessStarted(Retried(s, imp), imp), imp, ReadOk(xs, date));
      && |LinesOf(t, imp)| == |LinesOf(s, imp)| + |xs|
      && (|LinesOf(t, imp)| == |xs| <==> !HasLines(s, imp))
  {
    var reviewed := UnderReview(s, imp, date);
    assert UnderReview(ProcessStarted(Retried(s, imp), imp), imp, date) == reviewed;
    forall l | l in s.lines
      ensures l < s.nextLine
    {
      assert LineOk(s, l);
    }
    SavedLinesAreNew(reviewed, imp, xs);
    assert LinesOf(reviewed, imp) == LinesOf(s, imp);
    HasLinesMeansSome(s, imp);
  }

  lemma FailingAfterTheLines() returns (ops: seq<Op>)
    ensures var start := Start({1}, {});
      Run(start, ops) ==
        start.(imports := map[0 := Import(Failed, None, None)], lines := map[0 := OneLine(Pending)],
               nextImport := 1, nextLine := 1)
  {
    var start := Start({1}, {});
    var x := Extracted(3.0, Terms(true, None, false, 18.0, 0.0), Some(1));
    var r := SavedThenFailed([x]);
    ops := [UploadPdf(None)];
    RunLast(start, [], UploadPdf(None));
    RunLast(start, ops, StartProcess(0));
    ops := ops + [StartProcess(0)];
    assert Run(start, ops) == start.(imports := map[0 := Import(Processing, None, None)], nextImport := 1);
    RunLast(start, ops, EndProcess(0, r));
    ops := ops + [EndProcess(0, r)];
    var t := WithStatus(start.(imports := map[0 := Import(Processing, None, None)], nextImport := 1), 0, Failed);
    assert LinesSaved(t, 0, [x]) == LineSaved(t, 0, x) by {
      assert [x][..0] == [] && LinesSaved(t, 0, []) == t;
    }
  }

  lemma RetryRuns(ops: seq<Op>, imp: nat, r: Reading) returns (all: seq<Op>)
    ensures var s := Run(Start({1}, {}), ops);
      Run(Start({1}, {}), all) == ProcessEnded(ProcessStarted(Retried(s, imp), imp), imp, r)
  {
    var start := Start({1}, {});
    RunLast(start, ops, Retry(imp));
    all := ops + [Retry(imp)];
    RunLast(start, all, StartProcess(imp));
    all := all + [StartProcess(imp)];
    RunLast(start, all, EndProcess(imp, r));
    all := all + [EndProcess(imp, r)];
  }

  /** A reading that fails after saving its line, and a second one that does not: the line is there twice. */
  lemma RetryCanDouble()
    ensures exists ops :: |LinesOf(Run(Start({1}, {}), ops), 0)| == 2
  {
    var x := Extracted(3.0, Terms(true, None, false, 18.0, 0.0), Some(1));
    var ops := FailingAfterTheLines();
    var s := Run(Start({1}, {}), ops);
    RunKeepsInv(Start({1}, {}), ops);
    RetryAddsToWhatWasThere(s, 0, [x], None);
    assert LinesOf(s, 0) == {0};
    var all := RetryRuns(ops, 0, ReadOk([x], None));
    assert |LinesOf(Run(Start({1}, {}), all), 0)| == 2;
  }

  lemma HasLinesMeansSome(s: State, imp: nat)
    ensures HasLines(s, imp) <==> |LinesOf(s, imp)| > 0
  {
    if l :| l in s.lines && s.lines[l].imp == imp {
      assert l in LinesOf(s, imp);
    }
  }

  // ---------------------------------------------------------------- the service

  /** The loop of `rematch`. */
  method MatchLines(lines: map<nat, Line>, imp: nat, safe: map<nat, nat>) returns (matched: map<nat, Line>)
    ensures matched == map l | l in lines :: MatchedLine(lines[l], imp, safe)
  {
    var pending := lines.Keys;
    matched := lines;
    while pending != {}
      invariant pending <= lines.Keys && matched.Keys == lines.Keys
      invariant forall l :: l in pending ==> matched[l] == lines[l]
      invariant forall l :: l in matched && l !in pending ==> matched[l] == MatchedLine(lines[l], imp, safe)
      decreases |pending|
    {
      var l :| l in pending;
      var line := matched[l];
      if line.imp == imp && line.status == Pending && line.material.None? && line.id in safe {
        matched := matched[l := line.(material := Some(safe[line.id]))];
      }
      pending := pending - {l};
    }
  }

  class Service {
    var imports: map<nat, Import>
    var lines: map<nat, Line>
    var nextImport: nat
    var nextLine: nat
    var store: Ledger.Store
    ghost var log: seq<Creation>
    ghost var gone: set<nat>

    ghost function Now(): State
      reads this
    {
      State(imports, lines, nextImport, nextLine, store, log, gone)
    }

    constructor (materials: set<nat>, suppliers: set<nat>)
      ensures Now() == Start(materials, suppliers) && Inv(Now())
    {
      imports, lines, nextImport, nextLine := map[], map[], 0, 0;
      store, log, gone := Ledger.Store.Store([], 0, materials, suppliers), [], {};
    }

    method CreateImport(supplier: Option<nat>) returns (imp: nat)
      modifies this
      ensures Now() == Step(old(Now()), UploadPdf(supplier)) && imp == old(nextImport)
    {
      imp := nextImport;
      imports := imports[imp := Import(Queued, supplier, None)];
      nextImport := nextImport + 1;
    }

    /** The worker takes the batch, unless somebody else has. */
    method BeginProcess(imp: nat) returns (taken: bool)
      modifies this
      ensures Now() == Step(old(Now()), StartProcess(imp))
      ensures taken <==> imp in old(imports) && old(imports)[imp].status == Queued
    {
      taken := imp in imports && imports[imp].status == Queued;
      if taken {
        imports := imports[imp := imports[imp].(status := Processing)];
      }
    }

    method FinishProcess(imp: nat, result: Reading)
      modifies this
      ensures Now() == Step(old(Now()), EndProcess(imp, result))
    {
      if imp !in imports || imports[imp].status != Processing {
        return;
      }
      match result {
        case ReadFailed => imports := imports[imp := imports[imp].(status := Failed)];
        case SavedThenFailed(xs) =>
          imports := imports[imp := imports[imp].(status := Failed)];
          SaveLines(imp, xs);
        case ReadOk(xs, date) =>
          var dated := if date.Some? then date else imports[imp].documentDate;
          imports := imports[imp := imports[imp].(status := Review, documentDate := dated)];
          SaveLines(imp, xs);
      }
    }

    method SaveLines(imp: nat, xs: seq<Extracted>)
      modifies this
      ensures Now() == LinesSaved(old(Now()), imp, xs)
    {
      for i := 0 to |xs|
        invariant Now() == LinesSaved(old(Now()), imp, xs[..i])
      {
        assert xs[..i + 1][..i] == xs[..i];
        lines := lines[nextLine := Line(nextLine, imp, xs[i].price, xs[i].terms, xs[i].material, Pending, None)];
        nextLine := nextLine + 1;
      }
      assert xs[..|xs|] == xs;
    }

    method PrepareRetry(imp: nat) returns (error: Option<ImportError>)
      modifies this
      ensures Now() == Step(old(Now()), Retry(imp)) && error == RetryError(old(Now()), imp)
    {
      if imp !in imports {
        return Some(ImportNotFound);
      }
      var empty := forall l :: l in lines ==> lines[l].imp != imp;
      if imports[imp].status == Failed || (imports[imp].status == Review && empty) {
        imports := imports[imp := imports[imp].(status := Queued)];
        return None;
      }
      return Some(NotRetryable);
    }

    method UpdateLine(imp: nat, l: nat, p: Patch) returns (error: Option<ImportError>)
      modifies this
      ensures Now() == Step(old(Now()), Update(imp, l, p)) && error == UpdateError(old(Now()), imp, l, p)
    {
      if l !in lines || lines[l].imp != imp {
        return Some(LineNotFound);
      }
      if lines[l].status == Approved {
        return Some(AlreadyApproved);
      }
      if p.status == Some(Approved) {
        return Some(UseApprove);
      }
      if p.material.Some? && p.material.value.Some? && p.material.value.value !in store.materials {
        return Some(UnknownMaterial);
      }
      lines := lines[l := Patched(lines[l], p)];
      return None;
    }

    method CreateMaterialForLine(imp: nat, l: nat, made: Option<nat>) returns (error: Option<ImportError>)
      modifies this
      ensures Now() == Step(old(Now()), MakeMaterial(imp, l, made))
      ensures error == if !IsLineOf(old(Now()), imp, l) then Some(LineNotFound)
        else if old(lines)[l].status != Pending then Some(NotPending)
        else if made.None? then Some(MaterialRefused) else None
    {
      if l !in lines || lines[l].imp != imp {
        return Some(LineNotFound);
      }
      if lines[l].status != Pending {
        return Some(NotPending);
      }
      if made.None? {
        return Some(MaterialRefused);
      }
      store := store.(materials := store.materials + {made.value});
      lines := lines[l := lines[l].(material := made)];
      return None;
    }

    method RematchLines(imp: nat, safe: map<nat, nat>)
      modifies this`lines
      ensures Now() == Step(old(Now()), Rematch(imp, safe))
    {
      lines := MatchLines(lines, imp, safe);
    }

    /** `approve` over the lines the database found among those asked for. */
    method ApproveLines(imp: nat, ids: seq<nat>, rows: seq<nat>, date: Option<nat>)
      returns (error: Option<ImportError>, created: nat, skipped: seq<Skip>)
      requires Inv(Now()) && IsAnswer(Now(), imp, ids, rows)
      modifies this
      ensures Now() == Step(old(Now()), Approve(imp, rows, date)) && Inv(Now())
      ensures error == ApproveError(old(Now()), imp)
      ensures created == CreatedCount(old(Now()), Approve(imp, rows, date))
      ensures skipped == if error.Some? then []
        else Unknown(old(lines), imp, ids) + Skips(old(Now()), rows, ApproveDate(old(Now()), imp, date))
    {
      StepKeepsSound(Now(), Approve(imp, rows, date));
      if imp !in imports {
        return Some(ImportNotFound), 0, [];
      }
      if imports[imp].status != Review && imports[imp].status != Done {
        return Some(NotReviewable), 0, [];
      }
      error := None;
      skipped := Unknown(lines, imp, ids);
      var others;
      created, others := ApproveEach(rows, if date.Some? then date else imports[imp].documentDate);
      skipped := skipped + others;
      RefreshStatus(imp);
    }

    /** The loop of `approve`, over the lines as they were loaded. */
    method ApproveEach(rows: seq<nat>, date: Option<nat>) returns (created: nat, skipped: seq<Skip>)
      requires Sound(Now()) && Distinct(rows) && forall l :: l in rows ==> l in lines
      modifies this
      ensures Now() == ApproveRows(old(Now()), rows, date)
      ensures created == Turned(old(Now()), rows, date) && skipped == Skips(old(Now()), rows, date)
    {
      var loaded := lines;
      created, skipped := 0, [];
      for i := 0 to |rows|
        invariant Now() == ApproveRows(old(Now()), rows[..i], date)
        invariant created == Turned(old(Now()), rows[..i], date) && skipped == Skips(old(Now()), rows[..i], date)
      {
        assert rows[..i + 1][..i] == rows[..i];
        assert rows[i] in rows;
        StoreStays(old(Now()), rows, date, i);
        var line := loaded[rows[i]];
        var supplier := if line.imp in imports then imports[line.imp].supplier else None;
        var reason := SkipOf(store, supplier, line, date);
        if reason.Some? {
          skipped := skipped + [Skip(rows[i], reason.value)];
        } else {
          SaveApproved(line, supplier, date);
          created := created + 1;
        }
      }
      assert rows[..|rows|] == rows;
    }

    /** Create the price, then save the line. */
    method SaveApproved(line: Line, supplier: Option<nat>, date: Option<nat>)
      requires SkipOf(store, supplier, line, date).None? && line.id in lines
      modifies this
      ensures Now() == ApproveLoaded(old(Now()), line, supplier, date)
    {
      var id := |store.rows|;
      log := log + [Creation(line.id, id)];
      store := Ledger.Created(store, PriceOf(supplier, line, date));
      lines := lines[line.id := line.(status := Approved, createdPrice := Some(id))];
    }

    method RefreshStatus(imp: nat)
      modifies this
      ensures Now() == Refreshed(old(Now()), imp)
    {
      var pending := exists l :: l in lines && lines[l].imp == imp && lines[l].status == Pending;
      if imp in imports {
        imports := imports[imp := imports[imp].(status := if pending then Review else Done)];
      }
    }

    method RemoveImport(imp: nat)
      modifies this
      ensures Now() == Step(old(Now()), Remove(imp))
    {
      gone := gone + set l | l in lines && lines[l].imp == imp && lines[l].status == Approved;
      imports := imports - {imp};
      lines := map l | l in lines && lines[l].imp != imp :: lines[l];
    }
  }
}
