/**
 * Correlative codes without a lock (stp-api/src/common/save-with-unique-code.ts, and the numeric MAX of
 * stp-api/src/costs/materials.service.ts): each creator reads MAX + 1 and inserts it; the unique index refuses the
 * second of two equal codes, and whoever is refused starts over.
 */
module UniqueCodes {
  import opened Wrappers

  // ---------------------------------------------------------------- one creator: the retry loop

  datatype Attempt<T> = Saved(value: T) | UniqueViolation | OtherError(message: string)

  datatype Answer<T> = Returned(value: T) | Thrown(message: string) | GaveUp

  const DEFAULT_ATTEMPTS := 5

  function EffectiveAttempts(attempts: Option<int>): nat {
    var n := if attempts.Some? then attempts.value else DEFAULT_ATTEMPTS;
    if n >= 1 then n else 1
  }

  /**
   * Calls the operation again after each unique violation, at most `attempts` times: five if not given, and at least
   * once. `operation(k)` is what the k-th call does. Every call before the last was a unique violation, and the answer
   * is what the last one did.
   */
  method RetryOnUniqueViolation<T>(operation: nat -> Attempt<T>, attempts: Option<int>)
      returns (r: Answer<T>, calls: nat)
    ensures 1 <= calls <= match attempts case None => 5 case Some(most) => if most < 1 then 1 else most
    ensures forall k :: 1 <= k < calls ==> operation(k).UniqueViolation?
    ensures match operation(calls)
      case Saved(v) => r == Returned(v)
      case OtherError(m) => r == Thrown(m)
      case UniqueViolation =>
        r == GaveUp && calls == match attempts case None => 5 case Some(most) => if most < 1 then 1 else most
  {
    var n := EffectiveAttempts(attempts);
    calls := 1;
    while true
      invariant 1 <= calls <= n
      invariant forall k :: 1 <= k < calls ==> operation(k).UniqueViolation?
      decreases n - calls
    {
      match operation(calls) {
        case Saved(v) => return Returned(v), calls;
        case OtherError(m) => return Thrown(m), calls;
        case UniqueViolation =>
          if calls == n {
            return GaveUp, calls;
          }
      }
      calls := calls + 1;
    }
  }

  // ---------------------------------------------------------------- many creators: the protocol

  type Creator = nat

  /** A row that was saved, in the order of the commits. */
  datatype Commit = Commit(creator: Creator, code: nat)

  /**
   * A failed attempt: it read the table after `readAt` commits, failed after `failedAt`, and `commit` took its code.
   */
  datatype Refusal = Refusal(code: nat, readAt: nat, failedAt: nat, commit: nat)

  datatype Phase = Ready | Holding(code: nat, readAt: nat) | Done(code: nat) | Exhausted | Aborted

  datatype Worker = Worker(phase: Phase, failures: seq<Refusal>)

  /** The codes that were there before, the commits since, and the creators at work. */
  datatype System = System(existing: seq<nat>, log: seq<Commit>, workers: map<Creator, Worker>)

  datatype Event = Read(creator: Creator) | Insert(creator: Creator) | Abort(creator: Creator)

  function LogCodes(log: seq<Commit>): (r: seq<nat>)
    ensures |r| == |log| && forall i :: 0 <= i < |r| ==> r[i] == log[i].code
  {
    seq(|log|, i requires 0 <= i < |log| => log[i].code)
  }

  function Table(s: System): seq<nat> {
    s.existing + LogCodes(s.log)
  }

  function MaxCode(codes: seq<nat>): nat {
    if codes == [] then 0
    else
      var before := MaxCode(codes[..|codes| - 1]);
      var last := codes[|codes| - 1];
      if last > before then last else before
  }

  function NextCode(codes: seq<nat>): nat {
    MaxCode(codes) + 1
  }

  lemma {:induction false} MaxCodeBounds(codes: seq<nat>)
    ensures forall c :: c in codes ==> c <= MaxCode(codes)
  {
    if codes != [] {
      MaxCodeBounds(codes[..|codes| - 1]);
      assert codes == codes[..|codes| - 1] + [codes[|codes| - 1]];
    }
  }

  lemma {:induction false} MaxCodeIsThere(codes: seq<nat>)
    ensures codes == [] || exists i :: 0 <= i < |codes| && codes[i] == MaxCode(codes)
  {
    var n := |codes| - 1;
    if n > 0 && codes[n] <= MaxCode(codes[..n]) {
      MaxCodeIsThere(codes[..n]);
      var i :| 0 <= i < n && codes[..n][i] == MaxCode(codes[..n]);
      assert codes[i] == MaxCode(codes);
    } else if n >= 0 {
      assert codes[n] == MaxCode(codes);
    }
  }

  lemma MaxCodeIs(codes: seq<nat>, k: nat)
    requires k < |codes| && forall i :: 0 <= i < |codes| ==> codes[i] <= codes[k]
    ensures MaxCode(codes) == codes[k]
  {
    MaxCodeIsThere(codes);
    MaxCodeBounds(codes);
    assert codes[k] in codes;
  }

  /** The last commit of the log with this code. */
  function TakenAt(log: seq<Commit>, code: nat): nat {
    if log == [] then 0
    else if log[|log| - 1].code == code then |log| - 1
    else TakenAt(log[..|log| - 1], code)
  }

  lemma {:induction false} TakenAtFinds(log: seq<Commit>, code: nat)
    requires code in LogCodes(log)
    ensures TakenAt(log, code) < |log| && log[TakenAt(log, code)].code == code
  {
    var n := |log| - 1;
    if log[n].code != code {
      var i :| 0 <= i < |log| && log[i].code == code;
      assert LogCodes(log[..n])[i] == code;
      TakenAtFinds(log[..n], code);
    }
  }

  /** The creator was refused: it starts over, or gives up after its last attempt. */
  function Refused(s: System, w: Worker, attempts: nat): Worker
    requires w.phase.Holding?
  {
    var failed := w.failures + [Refusal(w.phase.code, w.phase.readAt, |s.log|, TakenAt(s.log, w.phase.code))];
    Worker(if |failed| >= attempts then Exhausted else Ready, failed)
  }

  /** One step of one creator. An event that does not fit the creator's phase does nothing. */
  function Step(s: System, ev: Event, attempts: nat): System {
    if ev.creator !in s.workers then s
    else
      var w := s.workers[ev.creator];
      match (ev, w.phase)
      case (Read(c), Ready) =>
        s.(workers := s.workers[c := w.(phase := Holding(NextCode(Table(s)), |s.log|))])
      case (Insert(c), Holding(code, readAt)) =>
        if code in Table(s) then
          s.(workers := s.workers[c := Refused(s, w, attempts)])
        else
          s.(log := s.log + [Commit(c, code)], workers := s.workers[c := w.(phase := Done(code))])
      case (Abort(c), Holding(_, _)) => s.(workers := s.workers[c := w.(phase := Aborted)])
      case _ => s
  }

  function Run(s: System, evs: seq<Event>, attempts: nat): System
    decreases evs
  {
    if evs == [] then s else Run(Step(s, evs[0], attempts), evs[1..], attempts)
  }

  /** The creators 0 .. n - 1. */
  function Creators(n: nat): (r: set<Creator>)
    ensures forall c: Creator :: c in r <==> c < n
    ensures |r| == n
  {
    if n == 0 then {} else Creators(n - 1) + {n - 1}
  }

  /** `n` creators about to start. */
  function Start(existing: seq<nat>, n: nat): System {
    System(existing, [], map c | c in Creators(n) :: Worker(Ready, []))
  }

  // ---------------------------------------------------------------- the invariant

  /** No code is saved twice, and none that was there before is saved again. */
  ghost predicate DistinctCodes(s: System) {
    && (forall i, j :: 0 <= i < j < |s.log| ==> s.log[i].code != s.log[j].code)
    && (forall i :: 0 <= i < |s.log| ==> s.log[i].code !in s.existing)
  }

  /** Commits and finished creators correspond one to one. */
  ghost predicate CommitsAreDone(s: System) {
    && (forall i :: 0 <= i < |s.log| ==>
          s.log[i].creator in s.workers && s.workers[s.log[i].creator].phase == Done(s.log[i].code))
    && (forall i, j :: 0 <= i < j < |s.log| ==> s.log[i].creator != s.log[j].creator)
    && (forall c :: c in s.workers && s.workers[c].phase.Done? ==> Commit(c, s.workers[c].phase.code) in s.log)
  }

  /** The failure is due to a commit made by somebody else between its reading and its failing. */
  ghost predicate Charged(s: System, c: Creator, f: Refusal) {
    f.readAt <= f.commit < f.failedAt <= |s.log| && s.log[f.commit].code == f.code && s.log[f.commit].creator != c
  }

  /** The attempts of a creator follow one another: each reads after the one before it failed. */
  ghost predicate InTurn(failures: seq<Refusal>) {
    forall a, b :: 0 <= a < b < |failures| ==> failures[a].failedAt <= failures[b].readAt
  }

  ghost predicate WorkerOk(s: System, c: Creator, w: Worker, attempts: nat) {
    && InTurn(w.failures)
    && (forall a :: 0 <= a < |w.failures| ==> Charged(s, c, w.failures[a]))
    && (w.phase.Holding? ==>
          && w.phase.readAt <= |s.log|
          && w.phase.code !in s.existing
          && (forall i :: 0 <= i < w.phase.readAt ==> s.log[i].code != w.phase.code)
          && (forall a :: 0 <= a < |w.failures| ==> w.failures[a].failedAt <= w.phase.readAt))
    && (w.phase.Exhausted? ==> |w.failures| >= attempts)
    && (w.phase.Ready? || w.phase.Holding? ==> |w.failures| < attempts)
  }

  ghost predicate Inv(s: System, attempts: nat) {
    && DistinctCodes(s)
    && CommitsAreDone(s)
    && forall c :: c in s.workers ==> WorkerOk(s, c, s.workers[c], attempts)
  }

  lemma ReadKeepsInv(s: System, c: Creator, attempts: nat)
    requires Inv(s, attempts) && c in s.workers && s.workers[c].phase.Ready?
    ensures Inv(Step(s, Read(c), attempts), attempts)
  {
    var s' := Step(s, Read(c), attempts);
    var code := NextCode(Table(s));
    MaxCodeBounds(Table(s));
    assert code !in Table(s);
    forall i | 0 <= i < |s.log|
      ensures s.log[i].code != code
    {
      assert Table(s)[|s.existing| + i] == s.log[i].code;
      assert s.log[i].code in Table(s);
    }
    forall e | e in s.existing
      ensures e != code
    {
      assert e in Table(s);
    }
    forall d | d in s'.workers
      ensures WorkerOk(s', d, s'.workers[d], attempts)
    {
      assert WorkerOk(s, d, s.workers[d], attempts);
    }
  }

  lemma FailureIsCharged(s: System, c: Creator, w: Worker, attempts: nat)
    requires WorkerOk(s, c, w, attempts) && CommitsAreDone(s) && c in s.workers && s.workers[c] == w
    requires w.phase.Holding? && w.phase.code in Table(s)
    ensures WorkerOk(s, c, Refused(s, w, attempts), attempts)
  {
    assert w.phase.code in LogCodes(s.log);
    TakenAtFinds(s.log, w.phase.code);
  }

  lemma SameLogSameWorker(s: System, s': System, d: Creator, w: Worker, attempts: nat)
    requires s'.log == s.log && s'.existing == s.existing
    ensures WorkerOk(s, d, w, attempts) ==> WorkerOk(s', d, w, attempts)
  {
  }

  lemma FailureKeepsInv(s: System, c: Creator, attempts: nat)
    requires Inv(s, attempts) && c in s.workers && s.workers[c].phase.Holding? && s.workers[c].phase.code in Table(s)
    ensures Inv(Step(s, Insert(c), attempts), attempts)
  {
    var s' := Step(s, Insert(c), attempts);
    FailureIsCharged(s, c, s.workers[c], attempts);
    forall d | d in s'.workers
      ensures WorkerOk(s', d, s'.workers[d], attempts)
    {
      assert WorkerOk(s, d, s.workers[d], attempts);
      SameLogSameWorker(s, s', d, s'.workers[d], attempts);
    }
  }

  lemma CommitKeepsInv(s: System, c: Creator, attempts: nat)
    requires Inv(s, attempts) && c in s.workers && s.workers[c].phase.Holding? && s.workers[c].phase.code !in Table(s)
    ensures Inv(Step(s, Insert(c), attempts), attempts)
  {
    var s' := Step(s, Insert(c), attempts);
    var code := s.workers[c].phase.code;
    forall i | 0 <= i < |s.log|
      ensures s.log[i].code != code && s.log[i].creator != c
    {
      assert Table(s)[|s.existing| + i] == s.log[i].code;
    }
    assert s'.log[|s.log|] == Commit(c, code);
    forall d | d in s'.workers
      ensures WorkerOk(s', d, s'.workers[d], attempts)
      ensures s'.workers[d].phase.Done? ==> Commit(d, s'.workers[d].phase.code) in s'.log
    {
      assert WorkerOk(s, d, s.workers[d], attempts);
      forall a | 0 <= a < |s.workers[d].failures|
        ensures Charged(s', d, s.workers[d].failures[a])
      {
        assert Charged(s, d, s.workers[d].failures[a]);
      }
    }
  }

  lemma StepKeepsInv(s: System, ev: Event, attempts: nat)
    requires Inv(s, attempts)
    ensures Inv(Step(s, ev, attempts), attempts)
    ensures Step(s, ev, attempts).workers.Keys == s.workers.Keys
  {
    if ev.creator in s.workers {
      match (ev, s.workers[ev.creator].phase)
      case (Read(c), Ready) => ReadKeepsInv(s, c, attempts);
      case (Insert(c), Holding(code, _)) =>
        if code in Table(s) {
          FailureKeepsInv(s, c, attempts);
        } else {
          CommitKeepsInv(s, c, attempts);
        }
      case (Abort(c), Holding(_, _)) =>
        forall d | d in s.workers
          ensures WorkerOk(s, d, s.workers[d], attempts)
        {
        }
      case _ =>
    }
  }

  lemma {:induction false} RunKeepsInv(s: System, evs: seq<Event>, attempts: nat)
    requires Inv(s, attempts)
    ensures Inv(Run(s, evs, attempts), attempts)
    ensures Run(s, evs, attempts).workers.Keys == s.workers.Keys
    decreases evs
  {
    if evs != [] {
      StepKeepsInv(s, evs[0], attempts);
      RunKeepsInv(Step(s, evs[0], attempts), evs[1..], attempts);
    }
  }

  /**
   * Any interleaving of any number of creators: codes stay distinct, and every failure is charged to somebody else's
   * commit.
   */
  lemma EveryRunKeepsCodesDistinct(existing: seq<nat>, n: nat, evs: seq<Event>, attempts: nat)
    requires attempts >= 1
    ensures var s := Run(Start(existing, n), evs, attempts);
      && DistinctCodes(s)
      && CommitsAreDone(s)
      && forall c :: c in s.workers ==>
           && InTurn(s.workers[c].failures)
           && forall a :: 0 <= a < |s.workers[c].failures| ==> Charged(s, c, s.workers[c].failures[a])
  {
    RunKeepsInv(Start(existing, n), evs, attempts);
    var s := Run(Start(existing, n), evs, attempts);
    forall c | c in s.workers
      ensures WorkerOk(s, c, s.workers[c], attempts)
    {
    }
  }

  // ---------------------------------------------------------------- no code is skipped

  /** Each commit takes the next number, and so would each creator that holds one if nobody had come before. */
  ghost predicate Consecutive(s: System, first: nat) {
    && (forall i :: 0 <= i < |s.log| ==> s.log[i].code == first + i)
    && (forall c :: c in s.workers && s.workers[c].phase.Holding? ==>
          s.workers[c].phase.readAt <= |s.log| && s.workers[c].phase.code == first + s.workers[c].phase.readAt)
  }

  lemma NextOfConsecutive(s: System, first: nat)
    requires Consecutive(s, first) && first == NextCode(s.existing)
    ensures NextCode(Table(s)) == first + |s.log|
  {
    var table, last := Table(s), |s.existing| + |s.log| - 1;
    if s.log != [] {
      assert table[last] == first + |s.log| - 1;
      MaxCodeBounds(s.existing);
      forall i | 0 <= i < |table|
        ensures table[i] <= table[last]
      {
        if i < |s.existing| {
          assert s.existing[i] in s.existing;
        }
      }
      MaxCodeIs(table, last);
    } else {
      assert table == s.existing;
    }
  }

  lemma StepKeepsConsecutive(s: System, ev: Event, attempts: nat, first: nat)
    requires Consecutive(s, first) && first == NextCode(s.existing)
    ensures Consecutive(Step(s, ev, attempts), first) && Step(s, ev, attempts).existing == s.existing
  {
    NextOfConsecutive(s, first);
    if ev.Insert? && ev.creator in s.workers && s.workers[ev.creator].phase.Holding? {
      var readAt := s.workers[ev.creator].phase.readAt;
      if readAt < |s.log| {
        assert Table(s)[|s.existing| + readAt] == first + readAt;
      }
    }
  }

  lemma {:induction false} RunKeepsConsecutive(s: System, evs: seq<Event>, attempts: nat, first: nat)
    requires Consecutive(s, first) && first == NextCode(s.existing)
    ensures Consecutive(Run(s, evs, attempts), first)
    decreases evs
  {
    if evs != [] {
      StepKeepsConsecutive(s, evs[0], attempts, first);
      RunKeepsConsecutive(Step(s, evs[0], attempts), evs[1..], attempts, first);
    }
  }

  /** In any interleaving the codes saved follow the greatest that was there one by one, in the order of the commits. */
  lemma NoCodeIsSkipped(existing: seq<nat>, n: nat, evs: seq<Event>, attempts: nat, i: nat)
    requires i < |Run(Start(existing, n), evs, attempts).log|
    ensures var code := Run(Start(existing, n), evs, attempts).log[i].code;
      if existing == [] then code == i + 1
      else code > i && (code - i - 1) in existing && forall c :: c in existing ==> c < code - i
  {
    RunKeepsConsecutive(Start(existing, n), evs, attempts, NextCode(existing));
    MaxCodeIsThere(existing);
    MaxCodeBounds(existing);
  }

  /**
   * What a creator does in its turn: it reads a code past all those there are, saves it if nobody has, counts a failure
   * if somebody has, and gives up with the last of its attempts. Nobody else is touched.
   */
  lemma TurnDoes(s: System, ev: Event, attempts: nat)
    requires ev.creator in s.workers
    ensures var c, w, t := ev.creator, s.workers[ev.creator], Step(s, ev, attempts);
      && t.existing == s.existing && t.workers.Keys == s.workers.Keys
      && (forall d :: d in s.workers && d != c ==> t.workers[d] == s.workers[d])
      && var w' := t.workers[c];
         if ev.Read? && w.phase.Ready? then
           w'.phase.Holding? && w'.phase.code !in Table(s) && w'.failures == w.failures && t.log == s.log
         else if ev.Insert? && w.phase.Holding? && w.phase.code !in Table(s) then
           w' == Worker(Done(w.phase.code), w.failures) && t.log == s.log + [Commit(c, w.phase.code)]
         else if ev.Insert? && w.phase.Holding? then
           && |w'.failures| == |w.failures| + 1 && t.log == s.log
           && w'.phase == (if |w.failures| + 1 < attempts then Ready else Exhausted)
         else if ev.Abort? && w.phase.Holding? then w' == Worker(Aborted, w.failures) && t.log == s.log
         else t == s
  {
    MaxCodeBounds(Table(s));
  }

  // ---------------------------------------------------------------- everybody succeeds

  function Blamed(s: System, failures: seq<Refusal>): seq<Creator> {
    seq(|failures|, a requires 0 <= a < |failures| =>
      if failures[a].commit < |s.log| then s.log[failures[a].commit].creator else 0)
  }

  lemma {:induction false} DistinctFit(xs: seq<nat>, all: set<nat>)
    requires forall a, b :: 0 <= a < b < |xs| ==> xs[a] != xs[b]
    requires forall a :: 0 <= a < |xs| ==> xs[a] in all
    ensures |xs| <= |all|
  {
    if xs != [] {
      var n := |xs| - 1;
      DistinctFit(xs[..n], all - {xs[n]});
    }
  }

  /** A creator never fails more often than there are other creators. */
  lemma FailuresAreFewerThanCreators(s: System, c: Creator, attempts: nat)
    requires Inv(s, attempts) && c in s.workers
    ensures |s.workers[c].failures| < |s.workers.Keys|
  {
    var failures := s.workers[c].failures;
    assert WorkerOk(s, c, s.workers[c], attempts);
    var blamed := Blamed(s, failures);
    forall a | 0 <= a < |failures|
      ensures blamed[a] in s.workers.Keys - {c}
    {
      assert Charged(s, c, failures[a]);
    }
    forall a, b | 0 <= a < b < |failures|
      ensures blamed[a] != blamed[b]
    {
      assert Charged(s, c, failures[a]) && Charged(s, c, failures[b]);
      assert failures[a].failedAt <= failures[b].readAt;
    }
    DistinctFit(blamed, s.workers.Keys - {c});
  }

  ghost predicate SomebodyGivesUp(existing: seq<nat>, n: nat, evs: seq<Event>, attempts: nat) {
    var s := Run(Start(existing, n), evs, attempts);
    exists c :: c in s.workers && s.workers[c].phase.Exhausted?
  }

  /** With no more creators than attempts, none is ever left without a code. */
  lemma NobodyGivesUp(existing: seq<nat>, n: nat, evs: seq<Event>, attempts: nat)
    requires n <= attempts && attempts >= 1
    ensures !SomebodyGivesUp(existing, n, evs, attempts)
  {
    var s := Run(Start(existing, n), evs, attempts);
    RunKeepsInv(Start(existing, n), evs, attempts);
    assert s.workers.Keys == Creators(n);
    forall c | c in s.workers
      ensures !s.workers[c].phase.Exhausted?
    {
      assert WorkerOk(s, c, s.workers[c], attempts);
      FailuresAreFewerThanCreators(s, c, attempts);
    }
  }

  // ---------------------------------------------------------------- the bound is exact

  /** Round `k`: creator 0 reads, creator k reads the same code and inserts it first. */
  function Round(k: nat): seq<Event> {
    [Read(0), Read(k), Insert(k), Insert(0)]
  }

  function Rounds(n: nat): seq<Event> {
    if n == 0 then [] else Rounds(n - 1) + Round(n)
  }

  lemma {:induction false} RunAppend(s: System, xs: seq<Event>, ys: seq<Event>, attempts: nat)
    ensures Run(s, xs + ys, attempts) == Run(Run(s, xs, attempts), ys, attempts)
    decreases xs
  {
    if xs == [] {
      assert xs + ys == ys;
    } else {
      assert (xs + ys)[1..] == xs[1..] + ys;
      RunAppend(Step(s, xs[0], attempts), xs[1..], ys, attempts);
    }
  }

  lemma RunFour(s: System, a: Event, b: Event, c: Event, d: Event, attempts: nat)
    ensures Run(s, [a, b, c, d], attempts)
            == Step(Step(Step(Step(s, a, attempts), b, attempts), c, attempts), d, attempts)
  {
    var s3 := Step(Step(Step(s, a, attempts), b, attempts), c, attempts);
    RunAppend(s, [a], [b] + ([c] + [d]), attempts);
    RunAppend(Step(s, a, attempts), [b], [c] + [d], attempts);
    RunAppend(Step(Step(s, a, attempts), b, attempts), [c], [d], attempts);
    assert [a, b, c, d] == [a] + ([b] + ([c] + [d]));
    assert Run(s3, [d], attempts) == Step(s3, d, attempts);
  }

  /** A round costs creator 0 one attempt and touches nobody else but creator k. */
  lemma OneRound(s: System, k: Creator, attempts: nat)
    requires k != 0 && 0 in s.workers && k in s.workers && s.workers[0].phase.Ready? && s.workers[k].phase.Ready?
    ensures var s' := Run(s, Round(k), attempts);
      && s'.workers.Keys == s.workers.Keys
      && |s'.workers[0].failures| == |s.workers[0].failures| + 1
      && s'.workers[0].phase == (if |s.workers[0].failures| + 1 >= attempts then Exhausted else Ready)
      && forall d :: d in s.workers && d != 0 && d != k ==> s'.workers[d] == s.workers[d]
  {
    RunFour(s, Read(0), Read(k), Insert(k), Insert(0), attempts);
    var code := NextCode(Table(s));
    assert code !in Table(s) by {
      MaxCodeBounds(Table(s));
    }
    var s1 := Step(s, Read(0), attempts);
    assert s1.workers[0] == Worker(Holding(code, |s.log|), s.workers[0].failures) && Table(s1) == Table(s);
    var s2 := Step(s1, Read(k), attempts);
    assert s2.workers[0] == s1.workers[0] && s2.workers[k].phase == Holding(code, |s.log|) && Table(s2) == Table(s);
    var s3 := Step(s2, Insert(k), attempts);
    assert s3.workers[0] == s2.workers[0] && s3.log == s.log + [Commit(k, code)];
    assert code in Table(s3) by {
      assert LogCodes(s3.log)[|s.log|] == code;
    }
  }

  /** After `k` rounds creator 0 has failed `k` times and the creators after k have not started. */
  ghost predicate AfterRounds(s: System, n: nat, k: nat, attempts: nat) {
    && s.workers.Keys == Creators(n)
    && 0 in s.workers && |s.workers[0].failures| == k
    && s.workers[0].phase == (if k >= attempts then Exhausted else Ready)
    && forall c :: c in s.workers && c > k ==> s.workers[c] == Worker(Ready, [])
  }

  lemma {:induction false} ManyRounds(existing: seq<nat>, n: nat, k: nat, attempts: nat)
    requires k <= attempts && k < n && attempts >= 1
    ensures AfterRounds(Run(Start(existing, n), Rounds(k), attempts), n, k, attempts)
  {
    if k > 0 {
      ManyRounds(existing, n, k - 1, attempts);
      RunAppend(Start(existing, n), Rounds(k - 1), Round(k), attempts);
      OneRound(Run(Start(existing, n), Rounds(k - 1), attempts), k, attempts);
    }
  }

  /** Some run leaves a creator without a code exactly when there are more creators than attempts. */
  lemma AttemptsAreExactlyEnough(existing: seq<nat>, n: nat, attempts: nat)
    requires attempts >= 1
    ensures (exists evs :: SomebodyGivesUp(existing, n, evs, attempts)) <==> n > attempts
  {
    if n > attempts {
      ManyRounds(existing, n, attempts, attempts);
      assert SomebodyGivesUp(existing, n, Rounds(attempts), attempts);
    } else {
      forall evs
        ensures !SomebodyGivesUp(existing, n, evs, attempts)
      {
        NobodyGivesUp(existing, n, evs, attempts);
      }
    }
  }
}
