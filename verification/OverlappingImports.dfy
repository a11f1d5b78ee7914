/**
 * The review of imported prices when requests overlap (stp-api/src/costs/price-imports.service.ts): each request loads
 * a line, and saves it later as it was loaded, while others do as they please.
 */
module OverlappingImports {
  import opened Wrappers
  import opened PriceSelection
  import opened PriceImports

  // ---------------------------------------------------------------- loads and late saves

  /** A line as a request read it, with what that request read of the import. */
  datatype Load = Load(line: Line, supplier: Option<nat>, date: Option<nat>, reviewable: bool)

  /** `workers` are the imports that a worker found queued and has yet to mark and read. */
  datatype World = World(s: State, loads: seq<Load>, workers: seq<nat>)

  /**
   * `SaveEdit` stands for every write of a review that is not an approval: a correction, a new material, a safe match.
   */
  datatype Event =
    | Whole(op: Op)
    | LoadLine(imp: nat, line: nat, date: Option<nat>)
    | SaveApproval(load: nat)
    | SaveEdit(load: nat, patch: Patch)
    | RefreshStatus(imp: nat)
    | FindQueued(imp: nat)
    | MarkProcessing(worker: nat)
    | FinishReading(worker: nat, result: Reading)

  /** The checks of `updateLine` on the line that was loaded; the save itself fails if the line is gone. */
  predicate EditTaken(s: State, line: Line, p: Patch) {
    && line.status != Approved && p.status != Some(Approved) && line.id in s.lines
    && (p.material.Some? && p.material.value.Some? ==> p.material.value.value in s.store.materials)
  }

  function EditSaved(s: State, line: Line, p: Patch): State {
    if EditTaken(s, line, p) then WithLine(s, line.id, Patched(line, p)) else s
  }

  function After(w: World, ev: Event): World {
    match ev
    case Whole(op) => w.(s := Step(w.s, op))
    case LoadLine(imp, l, date) =>
      if imp in w.s.imports && IsLineOf(w.s, imp, l) then w.(loads := w.loads + [LoadOf(w.s, imp, l, date)]) else w
    case SaveApproval(i) =>
      if i < |w.loads| && w.loads[i].reviewable
      then w.(s := ApproveLoaded(w.s, w.loads[i].line, w.loads[i].supplier, w.loads[i].date)) else w
    case SaveEdit(i, p) => if i < |w.loads| then w.(s := EditSaved(w.s, w.loads[i].line, p)) else w
    case RefreshStatus(imp) => w.(s := Refreshed(w.s, imp))
    case FindQueued(imp) =>
      if imp in w.s.imports && w.s.imports[imp].status == Queued then w.(workers := w.workers + [imp]) else w
    case MarkProcessing(k) =>
      if k < |w.workers| && w.workers[k] in w.s.imports then w.(s := WithStatus(w.s, w.workers[k], Processing)) else w
    case FinishReading(k, r) =>
      if k < |w.workers| && w.workers[k] in w.s.imports then w.(s := Finished(w.s, w.workers[k], r)) else w
  }

  function LoadOf(s: State, imp: nat, l: nat, date: Option<nat>): Load
    requires IsLineOf(s, imp, l)
  {
    Load(s.lines[l], SupplierOf(s, imp), ApproveDate(s, imp, date), ApproveError(s, imp).None?)
  }

  function RunAll(w: World, evs: seq<Event>): World
    decreases evs
  {
    if evs == [] then w else RunAll(After(w, evs[0]), evs[1..])
  }

  /** The event saves a line that somebody approved, or deleted, since it was loaded. */
  predicate Stale(w: World, ev: Event) {
    match ev
    case SaveApproval(i) =>
      && i < |w.loads| && w.loads[i].reviewable
      && SkipOf(w.s.store, w.loads[i].supplier, w.loads[i].line, w.loads[i].date).None? && !Fresh(w.s, w.loads[i].line)
    case SaveEdit(i, p) => i < |w.loads| && EditTaken(w.s, w.loads[i].line, p) && !Fresh(w.s, w.loads[i].line)
    case _ => false
  }

  predicate NeverStale(w: World, evs: seq<Event>)
    decreases evs
  {
    evs == [] || (!Stale(w, evs[0]) && NeverStale(After(w, evs[0]), evs[1..]))
  }

  // ---------------------------------------------------------------- what a load goes on being

  ghost predicate WorldOk(w: World) {
    && Sound(w.s)
    && forall i :: 0 <= i < |w.loads| ==> Carried(w.s, w.loads[i].line, w.loads[i].supplier)
  }

  /** No line changes import, no import changes supplier, and no id is used again. */
  ghost predicate Carries(s: State, t: State) {
    && s.nextLine <= t.nextLine
    && forall l :: l in t.lines && l < s.nextLine ==> CarriesLine(s, t, l)
  }

  ghost predicate CarriesLine(s: State, t: State, l: nat)
    requires l in t.lines
  {
    && l in s.lines && t.lines[l].imp == s.lines[l].imp
    && SupplierOf(t, t.lines[l].imp) == SupplierOf(s, s.lines[l].imp)
  }

  lemma CarriesTransitive(s: State, t: State, u: State)
    requires Carries(s, t) && Carries(t, u)
    ensures Carries(s, u)
  {
    forall l | l in u.lines && l < s.nextLine
      ensures CarriesLine(s, u, l)
    {
      assert CarriesLine(t, u, l) && CarriesLine(s, t, l);
    }
  }

  lemma QuietCarries(s: State, t: State)
    requires Sound(s) && Quiet(s, t)
    ensures Carries(s, t)
  {
    forall l | l in t.lines && l < s.nextLine
      ensures CarriesLine(s, t, l)
    {
      assert QuietLine(s, t, l);
      assert l in s.lines ==> LineOk(s, l);
    }
  }

  lemma ApproveCarries(s: State, line: Line, supplier: Option<nat>, date: Option<nat>)
    requires Carried(s, line, supplier)
    ensures Carries(s, ApproveLoaded(s, line, supplier, date))
  {
  }

  lemma {:induction false} RowsCarry(s: State, rows: seq<nat>, date: Option<nat>)
    requires Sound(s) && Distinct(rows)
    ensures Carries(s, ApproveRows(s, rows, date))
  {
    if rows != [] {
      var n := |rows| - 1;
      var t := ApproveRows(s, rows[..n], date);
      RowsCarry(s, rows[..n], date);
      RowsKeepSound(s, rows[..n], date);
      if rows[n] in s.lines {
        assert LineOk(s, rows[n]);
        assert rows[n] !in rows[..n];
        var line := s.lines[rows[n]];
        ApproveCarries(t, line, SupplierOf(s, line.imp), date);
        CarriesTransitive(s, t, ApproveRows(s, rows, date));
      }
    }
  }

  lemma FinishCarries(s: State, imp: nat, r: Reading)
    requires Sound(s) && imp in s.imports
    ensures Carries(s, Finished(s, imp, r))
  {
    var t := match r case ReadOk(_, date) => UnderReview(s, imp, date) case _ => WithStatus(s, imp, Failed);
    QuietKeepsSound(s, t);
    QuietCarries(s, t);
    if !r.ReadFailed? {
      LinesSavedIsQuiet(t, imp, r.lines);
      QuietCarries(t, LinesSaved(t, imp, r.lines));
      CarriesTransitive(s, t, LinesSaved(t, imp, r.lines));
    }
  }

  lemma EndCarries(s: State, imp: nat, r: Reading)
    requires Sound(s)
    ensures Carries(s, ProcessEnded(s, imp, r))
  {
    if imp in s.imports && s.imports[imp].status == Processing {
      FinishCarries(s, imp, r);
    }
  }

  lemma StepCarries(s: State, op: Op)
    requires Sound(s)
    ensures Carries(s, Step(s, op))
  {
    match op
    case EndProcess(imp, r) => EndCarries(s, imp, r);
    case Approve(imp, rows, date) =>
      if Distinct(rows) && ApproveError(s, imp).None? {
        var t := ApproveRows(s, rows, ApproveDate(s, imp, date));
        RowsCarry(s, rows, ApproveDate(s, imp, date));
        CarriesTransitive(s, t, Refreshed(t, imp));
      }
    case Remove(imp) =>
    case _ =>
      OtherStepsAreQuiet(s, op);
      QuietCarries(s, Step(s, op));
  }

  lemma CarriesLoads(w: World, t: State)
    requires WorldOk(w) && Sound(t) && Carries(w.s, t)
    ensures WorldOk(w.(s := t))
  {
    forall i | 0 <= i < |w.loads|
      ensures Carried(t, w.loads[i].line, w.loads[i].supplier)
    {
      assert Carried(w.s, w.loads[i].line, w.loads[i].supplier);
      assert w.loads[i].line.id in t.lines ==> CarriesLine(w.s, t, w.loads[i].line.id);
    }
  }

  // ---------------------------------------------------------------- one to one, exactly when nothing is stale

  /** Saving a correction from a load keeps prices and lines one to one exactly when the load is fresh. */
  lemma EditIsOneToOneWhenFresh(s: State, line: Line, supplier: Option<nat>, p: Patch)
    requires Sound(s) && Carried(s, line, supplier) && EditTaken(s, line, p)
    ensures var t := EditSaved(s, line, p);
      Sound(t) && Carries(s, t) && (OneToOne(t) <==> OneToOne(s) && Fresh(s, line))
  {
    var t := EditSaved(s, line, p);
    assert LineOk(s, line.id);
    forall m | m in t.lines
      ensures LineOk(t, m)
    {
      assert LineOk(s, m);
    }
    if !Fresh(s, line) {
      var k :| 0 <= k < |s.log| && s.log[k] == Creation(line.id, s.lines[line.id].createdPrice.value);
      assert !EntryOk(t, t.log[k]);
    } else {
      forall k | 0 <= k < |s.log|
        ensures EntryOk(t, t.log[k]) <==> EntryOk(s, s.log[k])
      {
      }
    }
  }

  lemma SaveKeepsWorld(w: World, ev: Event)
    requires WorldOk(w) && (ev.SaveApproval? || ev.SaveEdit?)
    ensures WorldOk(After(w, ev)) && (OneToOne(After(w, ev).s) <==> OneToOne(w.s) && !Stale(w, ev))
  {
    if ev.load < |w.loads| {
      var load := w.loads[ev.load];
      var t := After(w, ev).s;
      assert Carried(w.s, load.line, load.supplier);
      if ev.SaveApproval? && load.reviewable {
        ApproveKeepsSound(w.s, load.line, load.supplier, load.date);
        ApproveCarries(w.s, load.line, load.supplier, load.date);
        if SkipOf(w.s.store, load.supplier, load.line, load.date).None? {
          ApproveIsOneToOneWhenFresh(w.s, load.line, load.supplier, load.date);
        }
        CarriesLoads(w, t);
      }
      if ev.SaveEdit? && EditTaken(w.s, load.line, ev.patch) {
        EditIsOneToOneWhenFresh(w.s, load.line, load.supplier, ev.patch);
        CarriesLoads(w, t);
      }
    }
  }

  lemma WorkerKeepsWorld(w: World, ev: Event)
    requires WorldOk(w) && (ev.FindQueued? || ev.MarkProcessing? || ev.FinishReading?)
    ensures WorldOk(After(w, ev)) && (OneToOne(After(w, ev).s) <==> OneToOne(w.s))
  {
    var t := After(w, ev).s;
    if !ev.FindQueued? && ev.worker < |w.workers| && w.workers[ev.worker] in w.s.imports {
      if ev.MarkProcessing? {
        QuietKeepsSound(w.s, t);
        QuietCarries(w.s, t);
      } else {
        FinishKeepsSound(w.s, w.workers[ev.worker], ev.result);
        FinishCarries(w.s, w.workers[ev.worker], ev.result);
      }
      CarriesLoads(w, t);
    }
  }

  lemma EventKeepsWorld(w: World, ev: Event)
    requires WorldOk(w)
    ensures WorldOk(After(w, ev)) && (OneToOne(After(w, ev).s) <==> OneToOne(w.s) && !Stale(w, ev))
  {
    match ev
    case Whole(op) =>
      StepKeepsSound(w.s, op);
      StepCarries(w.s, op);
      CarriesLoads(w, Step(w.s, op));
    case LoadLine(imp, l, date) => assert l in w.s.lines ==> LineOk(w.s, l);
    case RefreshStatus(imp) =>
      QuietKeepsSound(w.s, Refreshed(w.s, imp));
      QuietCarries(w.s, Refreshed(w.s, imp));
      CarriesLoads(w, Refreshed(w.s, imp));
    case SaveApproval(_) => SaveKeepsWorld(w, ev);
    case SaveEdit(_, _) => SaveKeepsWorld(w, ev);
    case _ => WorkerKeepsWorld(w, ev);
  }

  lemma {:induction false} RunsAreOneToOneWhenNeverStale(w: World, evs: seq<Event>)
    requires WorldOk(w)
    ensures OneToOne(RunAll(w, evs).s) <==> OneToOne(w.s) && NeverStale(w, evs)
    decreases evs
  {
    if evs != [] {
      EventKeepsWorld(w, evs[0]);
      RunsAreOneToOneWhenNeverStale(After(w, evs[0]), evs[1..]);
    }
  }

  /**
   * However requests overlap, at the end of a run every price made from a line is the price of that line and of no
   * other exactly when no line was ever saved after somebody approved it or deleted it behind the request's back.
   */
  lemma OneToOneExactlyWhenNeverStale(materials: set<nat>, suppliers: set<nat>, evs: seq<Event>)
    ensures var start := World(Start(materials, suppliers), [], []);
      OneToOne(RunAll(start, evs).s) <==> NeverStale(start, evs)
  {
    RunsAreOneToOneWhenNeverStale(World(Start(materials, suppliers), [], []), evs);
  }

  lemma EventKeepsApproved(w: World, ev: Event, l: nat)
    requires WorldOk(w) && OneToOne(w.s) && !Stale(w, ev) && l in w.s.lines && w.s.lines[l].status == Approved
    ensures var t := After(w, ev).s;
      if l in t.lines then t.lines[l] == w.s.lines[l] else l in t.gone
  {
    match ev
    case Whole(op) => StepKeepsApproved(w.s, op, l);
    case FinishReading(k, r) =>
      assert LineOk(w.s, l);
      if k < |w.workers| && w.workers[k] in w.s.imports {
        FinishKeepsLine(w.s, w.workers[k], r, l);
      }
    case _ =>
  }

  lemma EventKeepsGone(w: World, ev: Event)
    requires WorldOk(w) && OneToOne(w.s)
    ensures w.s.gone <= After(w, ev).s.gone
  {
    match ev
    case Whole(op) => GoneStaysGone(w.s, op);
    case FinishReading(k, r) =>
      if k < |w.workers| && w.workers[k] in w.s.imports {
        FinishKeepsGone(w.s, w.workers[k], r);
      }
    case _ =>
  }

  /**
   * As long as nothing stale is saved, an approved line is as it was at the end of the run, or gone with its import.
   */
  lemma {:induction false} ApprovedStayWhenNeverStale(w: World, evs: seq<Event>, l: nat)
    requires WorldOk(w) && OneToOne(w.s) && NeverStale(w, evs)
    requires if l in w.s.lines then w.s.lines[l].status == Approved else l in w.s.gone
    ensures var t := RunAll(w, evs).s;
      if l in t.lines then l in w.s.lines && t.lines[l] == w.s.lines[l] else l in t.gone
    decreases evs
  {
    if evs != [] {
      EventKeepsWorld(w, evs[0]);
      EventKeepsGone(w, evs[0]);
      if l in w.s.lines {
        EventKeepsApproved(w, evs[0], l);
      } else {
        assert l in After(w, evs[0]).s.gone;
      }
      ApprovedStayWhenNeverStale(After(w, evs[0]), evs[1..], l);
    }
  }

  // ---------------------------------------------------------------- an approval, step by step

  function Loads(imp: nat, rows: seq<nat>, date: Option<nat>): seq<Event> {
    seq(|rows|, i requires 0 <= i < |rows| => LoadLine(imp, rows[i], date))
  }

  function Saves(n: nat): seq<Event> {
    seq(n, i requires 0 <= i < n => SaveApproval(i))
  }

  lemma {:induction false} RunAllJoins(w: World, xs: seq<Event>, ys: seq<Event>)
    ensures RunAll(w, xs + ys) == RunAll(RunAll(w, xs), ys)
    decreases xs
  {
    if xs == [] {
      assert xs + ys == ys;
    } else {
      assert (xs + ys)[1..] == xs[1..] + ys;
      RunAllJoins(After(w, xs[0]), xs[1..], ys);
    }
  }

  lemma RunAllLast(w: World, evs: seq<Event>, ev: Event)
    ensures RunAll(w, evs + [ev]) == After(RunAll(w, evs), ev)
  {
    RunAllJoins(w, evs, [ev]);
    assert RunAll(RunAll(w, evs), [ev]) == RunAll(After(RunAll(w, evs), ev), []);
  }

  lemma {:induction false} LoadsLoad(s: State, imp: nat, rows: seq<nat>, date: Option<nat>)
    requires imp in s.imports && forall l :: l in rows ==> IsLineOf(s, imp, l)
    ensures var w := RunAll(World(s, [], []), Loads(imp, rows, date));
      && w.s == s && |w.loads| == |rows|
      && forall i :: 0 <= i < |rows| ==> w.loads[i] == LoadOf(s, imp, rows[i], date)
  {
    if rows != [] {
      var n := |rows| - 1;
      LoadsLoad(s, imp, rows[..n], date);
      RunAllLast(World(s, [], []), Loads(imp, rows[..n], date), LoadLine(imp, rows[n], date));
      assert Loads(imp, rows, date) == Loads(imp, rows[..n], date) + [LoadLine(imp, rows[n], date)];
      assert rows[n] in rows;
    }
  }

  lemma {:induction false} SavesApprove(w: World, imp: nat, rows: seq<nat>, date: Option<nat>, n: nat)
    requires imp in w.s.imports && ApproveError(w.s, imp).None? && n <= |rows| == |w.loads|
    requires forall l :: l in rows ==> IsLineOf(w.s, imp, l)
    requires forall i :: 0 <= i < |rows| ==> w.loads[i] == LoadOf(w.s, imp, rows[i], date)
    ensures RunAll(w, Saves(n)) == w.(s := ApproveRows(w.s, rows[..n], ApproveDate(w.s, imp, date)))
  {
    if n > 0 {
      SavesApprove(w, imp, rows, date, n - 1);
      RunAllLast(w, Saves(n - 1), SaveApproval(n - 1));
      assert Saves(n) == Saves(n - 1) + [SaveApproval(n - 1)];
      assert rows[..n][..n - 1] == rows[..n - 1] && rows[n - 1] in rows;
    }
  }

  /** With nothing in between, they are the approval of `PriceImports`. */
  lemma ApproveIsItsSteps(s: State, imp: nat, rows: seq<nat>, date: Option<nat>)
    requires ApproveError(s, imp).None? && Distinct(rows) && forall l :: l in rows ==> IsLineOf(s, imp, l)
    ensures RunAll(World(s, [], []), Loads(imp, rows, date) + Saves(|rows|) + [RefreshStatus(imp)]).s
            == Step(s, Approve(imp, rows, date))
  {
    SavesAfterLoads(s, imp, rows, date);
    RunAllLast(World(s, [], []), Loads(imp, rows, date) + Saves(|rows|), RefreshStatus(imp));
  }

  lemma SavesAfterLoads(s: State, imp: nat, rows: seq<nat>, date: Option<nat>)
    requires ApproveError(s, imp).None? && forall l :: l in rows ==> IsLineOf(s, imp, l)
    ensures RunAll(World(s, [], []), Loads(imp, rows, date) + Saves(|rows|)).s
            == ApproveRows(s, rows, ApproveDate(s, imp, date))
  {
    var loads := Loads(imp, rows, date);
    LoadsLoad(s, imp, rows, date);
    SavesApprove(RunAll(World(s, [], []), loads), imp, rows, date, |rows|);
    RunAllJoins(World(s, [], []), loads, Saves(|rows|));
    assert rows[..|rows|] == rows;
  }

  /** So is a correction its loading and its saving, whatever the line, the patch and the answer. */
  lemma UpdateIsItsSteps(s: State, imp: nat, l: nat, p: Patch)
    requires Sound(s)
    ensures RunAll(World(s, [], []), [LoadLine(imp, l, None), SaveEdit(0, p)]).s == Step(s, Update(imp, l, p))
  {
    var start := World(s, [], []);
    assert l in s.lines ==> LineOk(s, l);
    RunAllLast(start, [], LoadLine(imp, l, None));
    RunAllLast(start, [LoadLine(imp, l, None)], SaveEdit(0, p));
    assert [] + [LoadLine(imp, l, None)] == [LoadLine(imp, l, None)];
    assert [LoadLine(imp, l, None)] + [SaveEdit(0, p)] == [LoadLine(imp, l, None), SaveEdit(0, p)];
  }

  /** And a reading, of a batch that is in the queue. */
  lemma ReadingIsItsSteps(s: State, imp: nat, r: Reading)
    requires imp in s.imports && s.imports[imp].status == Queued
    ensures RunAll(World(s, [], []), [FindQueued(imp), MarkProcessing(0), FinishReading(0, r)]).s
            == Step(Step(s, StartProcess(imp)), EndProcess(imp, r))
  {
    RunAllThree(World(s, [], []), FindQueued(imp), MarkProcessing(0), FinishReading(0, r));
  }

  lemma RunAllThree(w: World, a: Event, b: Event, c: Event)
    ensures RunAll(w, [a, b, c]) == After(After(After(w, a), b), c)
  {
    assert [a, b, c][1..] == [b, c] && [b, c][1..] == [c] && [c][1..] == [];
    assert RunAll(After(After(w, a), b), [c]) == RunAll(After(After(After(w, a), b), c), []);
  }

  // ---------------------------------------------------------------- and stale saves do happen

  function Wholes(ops: seq<Op>): seq<Event> {
    seq(|ops|, i requires 0 <= i < |ops| => Whole(ops[i]))
  }

  lemma {:induction false} WholesRun(s: State, ops: seq<Op>)
    ensures RunAll(World(s, [], []), Wholes(ops)) == World(Run(s, ops), [], [])
    decreases ops
  {
    if ops != [] {
      WholesRun(Step(s, ops[0]), ops[1..]);
      assert Wholes(ops)[1..] == Wholes(ops[1..]);
    }
  }

  /** A batch under review whose only line two requests have loaded, and one of them has approved. */
  lemma LoadedTwice() returns (evs: seq<Event>)
    ensures var w := RunAll(World(Start({1}, {}), [], []), evs);
      && |w.loads| == 2 && w.loads[1] == Load(OneLine(Pending), None, None, true)
      && |w.s.store.rows| == 1 && w.s.store.materials == {1} && w.s.log == [Creation(0, 0)]
      && 0 in w.s.lines && w.s.lines[0].status == Approved
  {
    var start := World(Start({1}, {}), [], []);
    var ops := Reviewing();
    WholesRun(start.s, ops);
    evs := Wholes(ops);
    PlainLineIsPriced(start.s.store, Pending);
    RunAllLast(start, evs, LoadLine(0, 0, None));
    evs := evs + [LoadLine(0, 0, None)];
    RunAllLast(start, evs, LoadLine(0, 0, None));
    evs := evs + [LoadLine(0, 0, None)];
    RunAllLast(start, evs, SaveApproval(0));
    evs := evs + [SaveApproval(0)];
  }

  /** Two approvals that loaded a line before either saved it make two prices of it. */
  lemma TwoApprovalsTwoPrices()
    ensures exists evs :: RunAll(World(Start({1}, {}), [], []), evs).s.log == [Creation(0, 0), Creation(0, 1)]
  {
    var start := World(Start({1}, {}), [], []);
    var evs := LoadedTwice();
    PlainLineIsPriced(RunAll(start, evs).s.store, Pending);
    RunAllLast(start, evs, SaveApproval(1));
    assert RunAll(start, evs + [SaveApproval(1)]).s.log == [Creation(0, 0), Creation(0, 1)];
  }

  /** A line made pending again, its price still in the ledger. */
  ghost predicate TakenBack(s: State) {
    s.log == [Creation(0, 0)] && 0 in s.lines && s.lines[0].status == Pending && s.lines[0].createdPrice.None?
  }

  /** A correction that loaded a line before it was approved takes the approval back and leaves the price. */
  lemma LateEditTakesTheApprovalBack()
    ensures exists evs :: TakenBack(RunAll(World(Start({1}, {}), [], []), evs).s)
  {
    var start := World(Start({1}, {}), [], []);
    var evs := LoadedTwice();
    var edit := SaveEdit(1, Patch(None, Some(4.0), None, None));
    RunAllLast(start, evs, edit);
    assert TakenBack(RunAll(start, evs + [edit]).s);
  }

  // ---------------------------------------------------------------- two workers

  /** Each worker that finds the batch queued adds the lines of its own reading, whatever another one has done. */
  lemma EveryReadingAddsItsLines(w: World, k: nat, r: Reading)
    requires WorldOk(w) && k < |w.workers| && w.workers[k] in w.s.imports
    ensures var imp := w.workers[k];
      |LinesOf(After(w, FinishReading(k, r)).s, imp)|
      == |LinesOf(w.s, imp)| + if r.ReadFailed? then 0 else |r.lines|
  {
    var imp := w.workers[k];
    var t := match r case ReadOk(_, date) => UnderReview(w.s, imp, date) case _ => WithStatus(w.s, imp, Failed);
    forall l | l in w.s.lines
      ensures l < w.s.nextLine
    {
      assert LineOk(w.s, l);
    }
    assert LinesOf(t, imp) == LinesOf(w.s, imp);
    if !r.ReadFailed? {
      SavedLinesAreNew(t, imp, r.lines);
    }
  }

  /** Two workers that both found an upload queued: its only line is stored twice. */
  lemma TwoWorkersReadTwice()
    ensures exists evs :: |LinesOf(RunAll(World(Start({1}, {}), [], []), evs).s, 0)| == 2
  {
    var start := World(Start({1}, {}), [], []);
    var r := ReadOk([Extracted(3.0, Terms(true, None, false, 18.0, 0.0), Some(1))], None);
    var evs := BothFoundQueued();
    var w := RunAll(start, evs);
    RunKeepsWorld(start, evs);
    RunAllLast(start, evs, FinishReading(0, r));
    var once := evs + [FinishReading(0, r)];
    EveryReadingAddsItsLines(w, 0, r);
    RunKeepsWorld(start, once);
    FinishKeepsImport(w.s, 0, r);
    RunAllLast(start, once, FinishReading(1, r));
    EveryReadingAddsItsLines(RunAll(start, once), 1, r);
    assert |LinesOf(RunAll(start, once + [FinishReading(1, r)]).s, 0)| == 2;
  }

  lemma FinishKeepsImport(s: State, imp: nat, r: Reading)
    requires imp in s.imports
    ensures imp in Finished(s, imp, r).imports
  {
    match r
    case ReadFailed =>
    case SavedThenFailed(xs) => LinesSavedKeepsImports(WithStatus(s, imp, Failed), imp, xs);
    case ReadOk(xs, date) => LinesSavedKeepsImports(UnderReview(s, imp, date), imp, xs);
  }

  lemma BothFoundQueued() returns (evs: seq<Event>)
    ensures var w := RunAll(World(Start({1}, {}), [], []), evs);
      w.workers == [0, 0] && 0 in w.s.imports && LinesOf(w.s, 0) == {}
  {
    var start := World(Start({1}, {}), [], []);
    evs := [Whole(UploadPdf(None))];
    RunAllLast(start, [], Whole(UploadPdf(None)));
    assert [] + [Whole(UploadPdf(None))] == evs;
    RunAllLast(start, evs, FindQueued(0));
    evs := evs + [FindQueued(0)];
    RunAllLast(start, evs, FindQueued(0));
    evs := evs + [FindQueued(0)];
  }

  lemma {:induction false} RunKeepsWorld(w: World, evs: seq<Event>)
    requires WorldOk(w)
    ensures WorldOk(RunAll(w, evs))
    decreases evs
  {
    if evs != [] {
      EventKeepsWorld(w, evs[0]);
      RunKeepsWorld(After(w, evs[0]), evs[1..]);
    }
  }
}
