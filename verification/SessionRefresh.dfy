/**
 * Single-flight renewal of a one-use refresh token: the in-flight map of stp-landing/lib/session-refresh.ts in
 * front of the rotation of stp-api/src/auth/auth.service.ts. Every state is reached by steps; callers, network,
 * server and timers interleave in any order.
 */
module SessionRefresh {
  import opened Wrappers

  // ---------------------------------------------------------------- state

  type Token = nat
  type User = nat

  const TAIL_MS := 5000
  const REFRESH_TOKEN_MS := 30 * 24 * 3600 * 1000

  /** What the API answers to POST /auth/refresh. */
  datatype Reply = Accepted(renewed: Token) | Rejected | ServerError

  /**
   * How far the API is with one request. `Lost` is one that never arrived or failed before anything was saved; `Found`
   * lies between reading the row and saving it revoked.
   */
  datatype Stage = Sent | Lost | Found | Replied(reply: Reply)

  datatype Outcome = Renewed(tokens: Token) | Invalid | Unavailable

  datatype Settled = Settled(outcome: Outcome, at: nat)

  /** One promise of the map: the API call it makes, how it settled, whether its timer has fired. */
  datatype Call = Call(token: Token, startedAt: nat, stage: Stage, settled: Option<Settled>, cleaned: bool)

  /** Somebody who called `refreshSession` and the promise that was returned. */
  datatype Caller = Caller(token: Token, at: nat, promise: nat)

  datatype Row = Row(user: User, revoked: bool, expiresAt: nat)

  datatype State = State(
    clock: nat,
    calls: seq<Call>,
    inFlight: map<Token, nat>,
    callers: seq<Caller>,
    rows: map<Token, Row>,
    nextToken: Token,
    disabled: set<User>,
    consumed: seq<nat>)  // the calls whose token was rotated, in order

  datatype Event =
    | Arrive(token: Token)               // refreshSession
    | Drop(call: nat)                    // the request never reaches the API, or fails there before it saves
    | Lookup(call: nat)                  // the API reads the row
    | Rotate(call: nat, issued: bool)    // ... saves it revoked, and issues the new one or fails to
    | Deliver(call: nat)                 // the reply reaches the landing
    | Fail(call: nat)                    // network error or the 10 s timeout
    | Fire(call: nat)                    // setTimeout(..., 5000)
    | Tick(ms: nat)
    | Login(user: User)
    | Logout(token: Token)
    | Disable(user: User)

  function Empty(): State {
    State(0, [], map[], [], map[], 0, {}, [])
  }

  // ---------------------------------------------------------------- steps of the landing

  function Arrived(s: State, token: Token): State {
    if token in s.inFlight then
      s.(callers := s.callers + [Caller(token, s.clock, s.inFlight[token])])
    else
      s.(calls := s.calls + [Call(token, s.clock, Sent, None, false)],
         inFlight := s.inFlight[token := |s.calls|],
         callers := s.callers + [Caller(token, s.clock, |s.calls|)])
  }

  function OutcomeOf(reply: Reply): Outcome {
    match reply
    case Accepted(renewed) => Renewed(renewed)
    case Rejected => Invalid
    case ServerError => Unavailable
  }

  function WithCall(s: State, p: nat, c: Call): State
    requires p < |s.calls|
  {
    s.(calls := s.calls[p := c])
  }

  function Delivered(s: State, p: nat): State {
    if p < |s.calls| && s.calls[p].settled.None? && s.calls[p].stage.Replied? then
      WithCall(s, p, s.calls[p].(settled := Some(Settled(OutcomeOf(s.calls[p].stage.reply), s.clock))))
    else s
  }

  function Failed(s: State, p: nat): State {
    if p < |s.calls| && s.calls[p].settled.None? then
      WithCall(s, p, s.calls[p].(settled := Some(Settled(Unavailable, s.clock))))
    else s
  }

  /** The timer deletes by token, whatever promise is stored there. */
  function Fired(s: State, p: nat): State {
    if p < |s.calls| && !s.calls[p].cleaned && s.calls[p].settled.Some?
      && s.clock >= s.calls[p].settled.value.at + TAIL_MS then
      WithCall(s, p, s.calls[p].(cleaned := true)).(inFlight := s.inFlight - {s.calls[p].token})
    else s
  }

  // ---------------------------------------------------------------- steps of the API

  function Dropped(s: State, p: nat): State {
    if p < |s.calls| && (s.calls[p].stage.Sent? || s.calls[p].stage.Found?)
    then WithCall(s, p, s.calls[p].(stage := Lost)) else s
  }

  function LookedUp(s: State, p: nat): State {
    if p < |s.calls| && s.calls[p].stage.Sent? then
      var token := s.calls[p].token;
      var rejected := WithCall(s, p, s.calls[p].(stage := Replied(Rejected)));
      if token !in s.rows || s.rows[token].revoked then rejected
      else if s.rows[token].expiresAt < s.clock then
        rejected.(rows := s.rows[token := s.rows[token].(revoked := true)])
      else if s.rows[token].user in s.disabled then rejected
      else WithCall(s, p, s.calls[p].(stage := Found))
    else s
  }

  function Issued(s: State, user: User): State {
    s.(rows := s.rows[s.nextToken := Row(user, false, s.clock + REFRESH_TOKEN_MS)], nextToken := s.nextToken + 1)
  }

  function Rotated(s: State, p: nat, issued: bool): State {
    if p < |s.calls| && s.calls[p].stage.Found? && s.calls[p].token in s.rows then
      var row := s.rows[s.calls[p].token];
      var reply := if issued then Accepted(s.nextToken) else ServerError;
      var t := WithCall(s, p, s.calls[p].(stage := Replied(reply)))
        .(rows := s.rows[s.calls[p].token := row.(revoked := true)], consumed := s.consumed + [p]);
      if issued then Issued(t, row.user) else t
    else s
  }

  function LoggedOut(s: State, token: Token): State {
    if token in s.rows then s.(rows := s.rows[token := s.rows[token].(revoked := true)]) else s
  }

  function Step(s: State, ev: Event): State {
    match ev
    case Arrive(token) => Arrived(s, token)
    case Drop(p) => Dropped(s, p)
    case Lookup(p) => LookedUp(s, p)
    case Rotate(p, issued) => Rotated(s, p, issued)
    case Deliver(p) => Delivered(s, p)
    case Fail(p) => Failed(s, p)
    case Fire(p) => Fired(s, p)
    case Tick(ms) => s.(clock := s.clock + ms)
    case Login(user) => Issued(s, user)
    case Logout(token) => LoggedOut(s, token)
    case Disable(user) => s.(disabled := s.disabled + {user})
  }

  function Run(s: State, evs: seq<Event>): State
    decreases evs
  {
    if evs == [] then s else Run(Step(s, evs[0]), evs[1..])
  }

  // ---------------------------------------------------------------- invariant of the map

  ghost predicate CallOk(s: State, p: nat)
    requires p < |s.calls|
  {
    var c := s.calls[p];
    && c.startedAt <= s.clock
    && (c.settled.Some? ==> c.startedAt <= c.settled.value.at <= s.clock)
    && (c.cleaned ==> c.settled.Some? && c.settled.value.at + TAIL_MS <= s.clock)
    && (!c.cleaned ==> c.token in s.inFlight && s.inFlight[c.token] == p)
    && (c.settled.Some? && !c.settled.value.outcome.Unavailable? ==>
          c.stage.Replied? && c.settled.value.outcome == OutcomeOf(c.stage.reply))
  }

  /** The earlier of two calls with one token had its timer fired before the later one started. */
  ghost predicate Apart(a: Call, b: Call) {
    a.token == b.token ==> a.cleaned && a.settled.Some? && a.settled.value.at + TAIL_MS <= b.startedAt
  }

  ghost predicate CallsOk(s: State) {
    && (forall p :: 0 <= p < |s.calls| ==> CallOk(s, p))
    && (forall t :: t in s.inFlight ==>
          s.inFlight[t] < |s.calls| && s.calls[s.inFlight[t]].token == t && !s.calls[s.inFlight[t]].cleaned)
    && (forall p, q :: 0 <= p < q < |s.calls| ==> Apart(s.calls[p], s.calls[q]))
  }

  ghost predicate CallerOk(s: State, c: Caller) {
    c.promise < |s.calls| && s.calls[c.promise].token == c.token && s.calls[c.promise].startedAt <= c.at <= s.clock
  }

  ghost predicate CallersOk(s: State) {
    && (forall k :: 0 <= k < |s.callers| ==> CallerOk(s, s.callers[k]))
    && (forall j, k :: 0 <= j < k < |s.callers| && s.callers[j].token == s.callers[k].token ==>
          s.callers[j].promise <= s.callers[k].promise)
  }

  ghost predicate MapInv(s: State) {
    CallsOk(s) && CallersOk(s)
  }

  /** A call may move on without leaving its place in the map. */
  ghost predicate Advances(s: State, p: nat, c: Call)
    requires p < |s.calls|
  {
    && c.token == s.calls[p].token && c.startedAt == s.calls[p].startedAt && c.cleaned == s.calls[p].cleaned
    && (s.calls[p].settled.Some? ==> c.settled == s.calls[p].settled)
  }

  lemma AdvanceKeepsMapInv(s: State, p: nat, c: Call)
    requires MapInv(s) && p < |s.calls| && Advances(s, p, c) && CallOk(s.(calls := s.calls[p := c]), p)
    ensures MapInv(WithCall(s, p, c))
  {
    var t := WithCall(s, p, c);
    forall q | 0 <= q < |t.calls|
      ensures CallOk(t, q)
    {
      assert CallOk(s, q);
    }
    forall q, r | 0 <= q < r < |t.calls|
      ensures Apart(t.calls[q], t.calls[r])
    {
      assert Apart(s.calls[q], s.calls[r]);
    }
    forall k | 0 <= k < |t.callers|
      ensures CallerOk(t, t.callers[k])
    {
      assert CallerOk(s, s.callers[k]);
    }
  }

  /** The promise handed to a new caller is the last one made for its token. */
  lemma NewestCallerNewestPromise(s: State, token: Token)
    requires MapInv(s)
    ensures forall k :: 0 <= k < |s.callers| && s.callers[k].token == token ==>
      s.callers[k].promise <= (if token in s.inFlight then s.inFlight[token] else |s.calls|)
  {
    forall k | 0 <= k < |s.callers| && s.callers[k].token == token && token in s.inFlight
      ensures s.callers[k].promise <= s.inFlight[token]
    {
      var p, q := s.inFlight[token], s.callers[k].promise;
      assert p < q < |s.calls| ==> Apart(s.calls[p], s.calls[q]);
      assert CallerOk(s, s.callers[k]);
    }
  }

  lemma ArriveKeepsCallsOk(s: State, token: Token)
    requires CallsOk(s)
    ensures CallsOk(Arrived(s, token))
  {
    var t := Arrived(s, token);
    forall q | 0 <= q < |t.calls|
      ensures CallOk(t, q)
    {
      assert q < |s.calls| ==> CallOk(s, q);
    }
    forall q, r | 0 <= q < r < |t.calls|
      ensures Apart(t.calls[q], t.calls[r])
    {
      assert CallOk(s, q);
      assert r < |s.calls| ==> Apart(s.calls[q], s.calls[r]);
    }
  }

  lemma ArriveKeepsMapInv(s: State, token: Token)
    requires MapInv(s)
    ensures MapInv(Arrived(s, token))
  {
    var t := Arrived(s, token);
    ArriveKeepsCallsOk(s, token);
    NewestCallerNewestPromise(s, token);
    forall k | 0 <= k < |t.callers|
      ensures CallerOk(t, t.callers[k])
    {
      if k < |s.callers| {
        assert CallerOk(s, s.callers[k]);
      } else if token in s.inFlight {
        assert CallOk(s, s.inFlight[token]);
      }
    }
  }

  lemma FireKeepsMapInv(s: State, p: nat)
    requires MapInv(s)
    ensures MapInv(Fired(s, p))
  {
    var t := Fired(s, p);
    if t != s {
      assert CallOk(s, p);
      forall q | 0 <= q < |t.calls|
        ensures CallOk(t, q)
      {
        assert CallOk(s, q);
      }
      forall q, r | 0 <= q < r < |t.calls|
        ensures Apart(t.calls[q], t.calls[r])
      {
        assert Apart(s.calls[q], s.calls[r]);
      }
      forall k | 0 <= k < |t.callers|
        ensures CallerOk(t, t.callers[k])
      {
        assert CallerOk(s, s.callers[k]);
      }
    }
  }

  /** Rows, new tokens and the log of rotations do not touch the map. */
  lemma ServerSideKeepsMapInv(s: State, t: State)
    requires MapInv(s) && t.calls == s.calls && t.inFlight == s.inFlight && t.callers == s.callers && s.clock <= t.clock
    ensures MapInv(t)
  {
    forall q | 0 <= q < |t.calls|
      ensures CallOk(t, q)
    {
      assert CallOk(s, q);
    }
    forall q, r | 0 <= q < r < |t.calls|
      ensures Apart(t.calls[q], t.calls[r])
    {
      assert Apart(s.calls[q], s.calls[r]);
    }
    forall k | 0 <= k < |t.callers|
      ensures CallerOk(t, t.callers[k])
    {
      assert CallerOk(s, s.callers[k]);
    }
  }

  lemma LookupKeepsMapInv(s: State, p: nat)
    requires MapInv(s) && p < |s.calls| && s.calls[p].stage.Sent?
    ensures MapInv(LookedUp(s, p))
  {
    assert CallOk(s, p);
    var c := LookedUp(s, p).calls[p];
    AdvanceKeepsMapInv(s, p, c);
    ServerSideKeepsMapInv(WithCall(s, p, c), LookedUp(s, p));
  }

  lemma RotateKeepsMapInv(s: State, p: nat, issued: bool)
    requires MapInv(s) && p < |s.calls| && s.calls[p].stage.Found? && s.calls[p].token in s.rows
    ensures MapInv(Rotated(s, p, issued))
  {
    assert CallOk(s, p);
    var c := Rotated(s, p, issued).calls[p];
    AdvanceKeepsMapInv(s, p, c);
    ServerSideKeepsMapInv(WithCall(s, p, c), Rotated(s, p, issued));
  }

  lemma SettleKeepsMapInv(s: State, p: nat)
    requires MapInv(s) && p < |s.calls| && s.calls[p].settled.None?
    ensures MapInv(Delivered(s, p)) && MapInv(Failed(s, p))
  {
    assert CallOk(s, p);
    AdvanceKeepsMapInv(s, p, Failed(s, p).calls[p]);
    if s.calls[p].stage.Replied? {
      AdvanceKeepsMapInv(s, p, Delivered(s, p).calls[p]);
    }
  }

  lemma StepKeepsMapInv(s: State, ev: Event)
    requires MapInv(s)
    ensures MapInv(Step(s, ev))
  {
    match ev
    case Arrive(token) => ArriveKeepsMapInv(s, token);
    case Drop(p) =>
      if p < |s.calls| && (s.calls[p].stage.Sent? || s.calls[p].stage.Found?) {
        assert CallOk(s, p);
        AdvanceKeepsMapInv(s, p, s.calls[p].(stage := Lost));
      }
    case Lookup(p) =>
      if p < |s.calls| && s.calls[p].stage.Sent? {
        LookupKeepsMapInv(s, p);
      }
    case Rotate(p, issued) =>
      if p < |s.calls| && s.calls[p].stage.Found? && s.calls[p].token in s.rows {
        RotateKeepsMapInv(s, p, issued);
      }
    case Deliver(p) =>
      if p < |s.calls| && s.calls[p].settled.None? {
        SettleKeepsMapInv(s, p);
      }
    case Fail(p) =>
      if p < |s.calls| && s.calls[p].settled.None? {
        SettleKeepsMapInv(s, p);
      }
    case Fire(p) => FireKeepsMapInv(s, p);
    case _ => ServerSideKeepsMapInv(s, Step(s, ev));
  }

  lemma {:induction false} RunKeepsMapInv(s: State, evs: seq<Event>)
    requires MapInv(s)
    ensures MapInv(Run(s, evs))
    decreases evs
  {
    if evs != [] {
      StepKeepsMapInv(s, evs[0]);
      RunKeepsMapInv(Step(s, evs[0]), evs[1..]);
    }
  }

  // ---------------------------------------------------------------- what every caller is told

  /** Still pending at that moment, or within the tail. */
  predicate Open(c: Call, at: nat) {
    c.settled.None? || at < c.settled.value.at + TAIL_MS
  }

  /** In any run, whoever arrives after a holder of a promise while it is open is given that same promise. */
  lemma OnePromisePerWindow(evs: seq<Event>, j: nat, k: nat)
    requires var s := Run(Empty(), evs);
      && j <= k < |s.callers| && s.callers[j].token == s.callers[k].token
      && s.callers[j].promise < |s.calls| && Open(s.calls[s.callers[j].promise], s.callers[k].at)
    ensures var s := Run(Empty(), evs);
      s.callers[k].promise == s.callers[j].promise
  {
    RunKeepsMapInv(Empty(), evs);
    var s := Run(Empty(), evs);
    var p, q := s.callers[j].promise, s.callers[k].promise;
    assert CallerOk(s, s.callers[j]) && CallerOk(s, s.callers[k]);
    assert j < k ==> p <= q;
    assert p < q < |s.calls| ==> Apart(s.calls[p], s.calls[q]);
  }

  /** In any run, two API calls with one token are a whole tail apart. */
  lemma OneCallPerWindow(evs: seq<Event>, p: nat, q: nat)
    requires var s := Run(Empty(), evs);
      p < q < |s.calls| && s.calls[p].token == s.calls[q].token
    ensures var s := Run(Empty(), evs);
      s.calls[p].settled.Some? && s.calls[p].settled.value.at + TAIL_MS <= s.calls[q].startedAt
  {
    RunKeepsMapInv(Empty(), evs);
    var s := Run(Empty(), evs);
    assert Apart(s.calls[p], s.calls[q]);
  }

  /** The timer deletes by token, yet in any run what it finds there is its own promise. */
  lemma TimersDeleteTheirOwnEntry(evs: seq<Event>, p: nat)
    requires var s := Run(Empty(), evs);
      Fired(s, p) != s
    ensures var s := Run(Empty(), evs);
      && p < |s.calls| && s.calls[p].token in s.inFlight && s.inFlight[s.calls[p].token] == p
      && forall t :: t in s.inFlight && t != s.calls[p].token ==>
           t in Fired(s, p).inFlight && Fired(s, p).inFlight[t] == s.inFlight[t]
  {
    RunKeepsMapInv(Empty(), evs);
    var s := Run(Empty(), evs);
    assert CallOk(s, p);
  }

  // ---------------------------------------------------------------- the one-use token

  /** The API is done with the request, or will never see it. */
  predicate Done(c: Call) {
    c.stage.Lost? || c.stage.Replied?
  }

  /** The promise does not settle while the API still has the request in hand. */
  predicate Prompt(s: State, ev: Event) {
    ev.Fail? && ev.call < |s.calls| && s.calls[ev.call].settled.None? ==> Done(s.calls[ev.call])
  }

  predicate PromptRun(s: State, evs: seq<Event>)
    decreases evs
  {
    evs == [] || (Prompt(s, evs[0]) && PromptRun(Step(s, evs[0]), evs[1..]))
  }

  predicate Revoked(s: State, token: Token) {
    token in s.rows && s.rows[token].revoked
  }

  /** What the API would accept at that time. */
  predicate Usable(s: State, token: Token, at: nat) {
    token in s.rows && !s.rows[token].revoked && at <= s.rows[token].expiresAt && s.rows[token].user !in s.disabled
  }

  /** The API rotated the token for this call. */
  predicate RotatedFor(c: Call) {
    c.stage.Replied? && !c.stage.reply.Rejected?
  }

  // ---------------------------------------------------------------- in any run

  /** The calls that rotated their token are those of the log. */
  ghost predicate LogOk(s: State) {
    && (forall i :: 0 <= i < |s.consumed| ==> s.consumed[i] < |s.calls|)
    && (forall p :: 0 <= p < |s.calls| ==> (RotatedFor(s.calls[p]) <==> p in s.consumed))
    && (forall p :: 0 <= p < |s.calls| && s.calls[p].stage.Found? ==> s.calls[p].token in s.rows)
  }

  lemma RotateKeepsLogOk(s: State, p: nat, issued: bool)
    requires LogOk(s)
    ensures LogOk(Rotated(s, p, issued))
  {
    var t := Rotated(s, p, issued);
    if t != s {
      assert t.consumed == s.consumed + [p];
      forall q | 0 <= q < |t.calls|
        ensures RotatedFor(t.calls[q]) <==> q in t.consumed
      {
        assert RotatedFor(s.calls[q]) <==> q in s.consumed;
      }
    }
  }

  lemma StepKeepsLogOk(s: State, ev: Event)
    requires LogOk(s)
    ensures LogOk(Step(s, ev))
  {
    if ev.Rotate? {
      RotateKeepsLogOk(s, ev.call, ev.issued);
    } else {
      var t := Step(s, ev);
      forall q | 0 <= q < |t.calls|
        ensures RotatedFor(t.calls[q]) <==> q in t.consumed
        ensures t.calls[q].stage.Found? ==> t.calls[q].token in t.rows
      {
        assert q < |s.calls| ==> (RotatedFor(s.calls[q]) <==> q in s.consumed);
      }
    }
  }

  lemma {:induction false} RunKeepsLogOk(s: State, evs: seq<Event>)
    requires LogOk(s)
    ensures LogOk(Run(s, evs))
    decreases evs
  {
    if evs != [] {
      StepKeepsLogOk(s, evs[0]);
      RunKeepsLogOk(Step(s, evs[0]), evs[1..]);
    }
  }

  /** In any run, the promise that rotated a token never tells anybody that the token is invalid. */
  lemma RotatedIsNeverInvalid(evs: seq<Event>, p: nat)
    requires p in Run(Empty(), evs).consumed
    ensures var s := Run(Empty(), evs);
      p < |s.calls| && (s.calls[p].settled.Some? ==> !s.calls[p].settled.value.outcome.Invalid?)
  {
    RunKeepsLogOk(Empty(), evs);
    RunKeepsMapInv(Empty(), evs);
    assert CallOk(Run(Empty(), evs), p);
  }

  /**
   * In any run, nobody who arrives while the promise that rotated a token is open is told that the token is invalid.
   */
  lemma NoSpuriousLogout(evs: seq<Event>, p: nat, j: nat, k: nat)
    requires var s := Run(Empty(), evs);
      && p in s.consumed && p < |s.calls| && j <= k < |s.callers|
      && s.callers[j].promise == p && s.callers[k].token == s.callers[j].token && Open(s.calls[p], s.callers[k].at)
    ensures var s := Run(Empty(), evs);
      && s.callers[k].promise == p
      && (s.calls[p].settled.Some? ==> !s.calls[p].settled.value.outcome.Invalid?)
  {
    OnePromisePerWindow(evs, j, k);
    RotatedIsNeverInvalid(evs, p);
  }

  // ---------------------------------------------------------------- consumed once

  /** What is known of a call once another one has rotated its token: it can only be refused. */
  predicate Refused(c: Call) {
    c.stage.Sent? || c.stage.Lost? || c.stage == Replied(Rejected)
  }

  ghost predicate ConsumedOk(s: State, p: nat) {
    && p < |s.calls| && RotatedFor(s.calls[p]) && Revoked(s, s.calls[p].token)
    && forall q :: 0 <= q < |s.calls| && q != p && s.calls[q].token == s.calls[p].token ==> Refused(s.calls[q])
  }

  ghost predicate StageOk(s: State, p: nat, late: set<nat>)
    requires p < |s.calls|
  {
    && (s.calls[p].settled.Some? ==> Done(s.calls[p]) || p in late)
    && (RotatedFor(s.calls[p]) ==> p in s.consumed)
    && (s.calls[p].stage.Found? ==> s.calls[p].token in s.rows)
  }

  /** Given up too early, but with a token that will be of no use once the tail is over. */
  ghost predicate LateOk(s: State, p: nat) {
    && p < |s.calls| && s.calls[p].settled.Some? && s.calls[p].token < s.nextToken
    && !Usable(s, s.calls[p].token, s.calls[p].settled.value.at + TAIL_MS)
    && forall q :: p < q < |s.calls| && s.calls[q].token == s.calls[p].token ==> Refused(s.calls[q])
  }

  /** `late` are the promises that settled while the API had the request in hand. */
  ghost predicate TokenInv(s: State, late: set<nat>) {
    && MapInv(s)
    && (forall t :: t in s.rows ==> t < s.nextToken)
    && (forall p :: 0 <= p < |s.calls| ==> StageOk(s, p, late))
    && (forall p :: p in late ==> LateOk(s, p))
    && (forall i :: 0 <= i < |s.consumed| ==> ConsumedOk(s, s.consumed[i]))
    && (forall i, j :: 0 <= i < j < |s.consumed| ==> s.consumed[i] != s.consumed[j])
  }

  /** Another call with the same token is over before the API looks at this one, or this one will be refused. */
  lemma OthersAreDone(s: State, p: nat, q: nat, late: set<nat>)
    requires TokenInv(s, late) && p < |s.calls| && q < |s.calls| && p != q && s.calls[p].token == s.calls[q].token
    requires s.calls[p].stage.Found?
    ensures Done(s.calls[q]) || Refused(s.calls[q])
  {
    var a, b := if p < q then p else q, if p < q then q else p;
    assert Apart(s.calls[a], s.calls[b]);
    assert StageOk(s, a, late);
    assert a in late ==> LateOk(s, a);
  }

  /** A call that comes after one given up too early finds a token that is no longer accepted. */
  lemma LaterCallsAreUnusable(s: State, p: nat, q: nat, late: set<nat>)
    requires TokenInv(s, late) && p in late && p < q < |s.calls| && s.calls[p].token == s.calls[q].token
    ensures Refused(s.calls[q]) && !Usable(s, s.calls[q].token, s.clock)
  {
    assert LateOk(s, p);
    assert Apart(s.calls[p], s.calls[q]);
    assert CallOk(s, q);
  }

  /** Steps that leave rotations alone, and take neither a call nor a row back. */
  ghost predicate Quiet(s: State, t: State) {
    && |s.calls| <= |t.calls| && t.consumed == s.consumed && s.nextToken <= t.nextToken && s.disabled <= t.disabled
    && (forall k :: k in s.rows ==> k in t.rows && t.rows[k] in {s.rows[k], s.rows[k].(revoked := true)})
    && (forall k :: k in t.rows ==> k < t.nextToken && (k < s.nextToken ==> k in s.rows))
    && (forall p :: 0 <= p < |s.calls| ==> t.calls[p].token == s.calls[p].token && StageMoves(s, p, t.calls[p]))
    && (forall p :: |s.calls| <= p < |t.calls| ==> t.calls[p].stage.Sent? && t.calls[p].settled.None?)
  }

  ghost predicate StageMoves(s: State, p: nat, c: Call)
    requires p < |s.calls|
  {
    var token := s.calls[p].token;
    || c.stage == s.calls[p].stage
    || (s.calls[p].stage.Found? && c.stage.Lost?)
    || (s.calls[p].stage.Sent? && (Refused(c) || (c.stage.Found? && Usable(s, token, s.clock))))
  }

  lemma QuietKeepsLateOk(s: State, t: State, late: set<nat>, p: nat)
    requires TokenInv(s, late) && MapInv(t) && Quiet(s, t) && p in late && t.calls[p].settled == s.calls[p].settled
    requires forall q :: p < q < |s.calls| && s.calls[q].token == s.calls[p].token ==> Refused(t.calls[q])
    ensures LateOk(t, p)
  {
    assert LateOk(s, p);
  }

  lemma QuietKeepsTokenInv(s: State, t: State, late: set<nat>)
    requires TokenInv(s, late) && MapInv(t) && Quiet(s, t)
    requires forall p :: 0 <= p < |s.calls| && t.calls[p].settled != s.calls[p].settled ==>
      p !in late && Done(t.calls[p])
    ensures TokenInv(t, late)
  {
    forall p | 0 <= p < |t.calls|
      ensures StageOk(t, p, late)
    {
      assert p < |s.calls| ==> StageOk(s, p, late);
    }
    forall i | 0 <= i < |t.consumed|
      ensures ConsumedOk(t, t.consumed[i])
    {
      assert ConsumedOk(s, s.consumed[i]);
    }
    forall p | p in late
      ensures LateOk(t, p)
    {
      assert LateOk(s, p);
      forall q | p < q < |s.calls| && s.calls[q].token == s.calls[p].token
        ensures Refused(t.calls[q])
      {
        LaterCallsAreUnusable(s, p, q, late);
      }
      QuietKeepsLateOk(s, t, late, p);
    }
  }

  lemma RotateKeepsLateOk(s: State, p: nat, issued: bool, late: set<nat>, l: nat)
    requires TokenInv(s, late) && p < |s.calls| && s.calls[p].stage.Found? && s.calls[p].token in s.rows && l in late
    ensures LateOk(Rotated(s, p, issued), l)
  {
    assert LateOk(s, l);
    if l < p && s.calls[p].token == s.calls[l].token {
      LaterCallsAreUnusable(s, l, p, late);
    }
  }

  lemma RotateKeepsTokenInv(s: State, p: nat, issued: bool, late: set<nat>)
    requires TokenInv(s, late) && p < |s.calls| && s.calls[p].stage.Found? && s.calls[p].token in s.rows
    ensures TokenInv(Rotated(s, p, issued), late)
  {
    var t := Rotated(s, p, issued);
    RotateKeepsMapInv(s, p, issued);
    forall i | 0 <= i < |s.consumed|
      ensures s.consumed[i] != p && s.calls[s.consumed[i]].token != s.calls[p].token && ConsumedOk(t, s.consumed[i])
    {
      assert ConsumedOk(s, s.consumed[i]);
    }
    forall q | 0 <= q < |s.calls| && q != p && s.calls[q].token == s.calls[p].token
      ensures Refused(s.calls[q])
    {
      OthersAreDone(s, p, q, late);
      assert StageOk(s, q, late);
      assert q !in s.consumed;
    }
    forall q | 0 <= q < |t.calls|
      ensures StageOk(t, q, late)
    {
      assert StageOk(s, q, late);
      assert t.consumed[|s.consumed|] == p;
    }
    forall l | l in late
      ensures LateOk(t, l)
    {
      RotateKeepsLateOk(s, p, issued, late, l);
    }
  }

  lemma SettleKeepsTokenInv(s: State, p: nat, late: set<nat>)
    requires TokenInv(s, late)
    ensures MapInv(Delivered(s, p)) ==> TokenInv(Delivered(s, p), late)
    ensures MapInv(Failed(s, p)) && Prompt(s, Fail(p)) ==> TokenInv(Failed(s, p), late)
  {
    assert p in late ==> LateOk(s, p);
    if MapInv(Delivered(s, p)) {
      QuietKeepsTokenInv(s, Delivered(s, p), late);
    }
    if MapInv(Failed(s, p)) && Prompt(s, Fail(p)) {
      QuietKeepsTokenInv(s, Failed(s, p), late);
    }
  }

  lemma QuietSteps(s: State, ev: Event)
    requires !ev.Rotate? && !ev.Deliver? && !ev.Fail?
    requires forall t :: t in s.rows ==> t < s.nextToken
    ensures Quiet(s, Step(s, ev))
    ensures forall p :: 0 <= p < |s.calls| ==> Step(s, ev).calls[p].settled == s.calls[p].settled
  {
  }

  lemma StepKeepsTokenInv(s: State, ev: Event, late: set<nat>)
    requires TokenInv(s, late) && Prompt(s, ev)
    ensures TokenInv(Step(s, ev), late)
  {
    StepKeepsMapInv(s, ev);
    match ev
    case Rotate(p, issued) =>
      if p < |s.calls| && s.calls[p].stage.Found? && s.calls[p].token in s.rows {
        RotateKeepsTokenInv(s, p, issued, late);
      }
    case Deliver(p) => SettleKeepsTokenInv(s, p, late);
    case Fail(p) => SettleKeepsTokenInv(s, p, late);
    case _ =>
      QuietSteps(s, ev);
      QuietKeepsTokenInv(s, Step(s, ev), late);
  }

  lemma {:induction false} RunKeepsTokenInv(s: State, evs: seq<Event>, late: set<nat>)
    requires TokenInv(s, late) && PromptRun(s, evs)
    ensures TokenInv(Run(s, evs), late)
    decreases evs
  {
    if evs != [] {
      StepKeepsTokenInv(s, evs[0], late);
      RunKeepsTokenInv(Step(s, evs[0]), evs[1..], late);
    }
  }

  ghost predicate ConsumesTwice(s: State) {
    exists i, j :: 0 <= i < j < |s.consumed| && s.consumed[i] < |s.calls| && s.consumed[j] < |s.calls|
      && s.calls[s.consumed[i]].token == s.calls[s.consumed[j]].token
  }

  lemma TokenInvConsumesOnce(s: State, late: set<nat>)
    requires TokenInv(s, late)
    ensures !ConsumesTwice(s)
  {
    forall i, j | 0 <= i < j < |s.consumed|
      ensures s.calls[s.consumed[i]].token != s.calls[s.consumed[j]].token
    {
      assert ConsumedOk(s, s.consumed[i]) && ConsumedOk(s, s.consumed[j]);
    }
  }

  /** While no promise gives up on a request the API has in hand, no token is rotated twice. */
  lemma TokensAreConsumedOnce(evs: seq<Event>)
    requires PromptRun(Empty(), evs)
    ensures !ConsumesTwice(Run(Empty(), evs))
  {
    RunKeepsTokenInv(Empty(), evs, {});
    TokenInvConsumesOnce(Run(Empty(), evs), {});
  }

  /** Nobody is told that a rotated token was renewed but by the promise that rotated it. */
  lemma OnlyTheRotatingPromiseRenews(evs: seq<Event>, p: nat, k: nat)
    requires PromptRun(Empty(), evs)
    requires var s := Run(Empty(), evs);
      p in s.consumed && k < |s.callers| && p < |s.calls| && s.callers[k].token == s.calls[p].token
    ensures var s := Run(Empty(), evs);
      && s.callers[k].promise < |s.calls|
      && var settled := s.calls[s.callers[k].promise].settled;
         settled.Some? && settled.value.outcome.Renewed? ==> s.callers[k].promise == p
  {
    RunKeepsTokenInv(Empty(), evs, {});
    var s := Run(Empty(), evs);
    var q := s.callers[k].promise;
    assert CallerOk(s, s.callers[k]);
    assert CallOk(s, q);
    var i :| 0 <= i < |s.consumed| && s.consumed[i] == p;
    assert ConsumedOk(s, s.consumed[i]);
  }

  // ---------------------------------------------------------------- and exactly when not

  lemma {:induction false} RunLast(s: State, evs: seq<Event>, ev: Event)
    ensures Run(s, evs + [ev]) == Step(Run(s, evs), ev)
    ensures PromptRun(s, evs + [ev]) <==> PromptRun(s, evs) && Prompt(Run(s, evs), ev)
    decreases evs
  {
    if evs == [] {
      assert evs + [ev] == [ev];
      assert Run(s, [ev]) == Run(Step(s, ev), []) && [ev][1..] == [];
    } else {
      assert (evs + [ev])[1..] == evs[1..] + [ev];
      RunLast(Step(s, evs[0]), evs[1..], ev);
    }
  }

  /** The promise is given up while the API has its request in hand, and its token will outlive the tail. */
  ghost predicate TooEarly(s: State, p: nat) {
    && p < |s.calls| && s.calls[p].settled.None? && !Done(s.calls[p])
    && Usable(s, s.calls[p].token, s.clock + TAIL_MS)
  }

  /** The timer of the first promise fires, and the API reads the token again for a second one. */
  lemma SecondReading(s: State, p: nat) returns (evs: seq<Event>)
    requires MapInv(s) && TooEarly(s, p)
    ensures PromptRun(Failed(s, p), evs)
    ensures var t, c := Run(Failed(s, p), evs), s.calls[p];
      && |t.calls| == |s.calls| + 1 && t.consumed == s.consumed && c.token in t.rows
      && t.calls[p].token == t.calls[|s.calls|].token == c.token
      && t.calls[p].stage.Found? && t.calls[|s.calls|].stage.Found?
  {
    assert CallOk(s, p);
    var f, q := Failed(s, p), |s.calls|;
    RunLast(f, [], Lookup(p));
    RunLast(f, [Lookup(p)], Tick(TAIL_MS));
    evs := [Lookup(p), Tick(TAIL_MS)];
    RunLast(f, evs, Fire(p));
    evs := evs + [Fire(p)];
    assert s.calls[p].token !in Run(f, evs).inFlight;
    RunLast(f, evs, Arrive(s.calls[p].token));
    evs := evs + [Arrive(s.calls[p].token)];
    RunLast(f, evs, Lookup(q));
    evs := evs + [Lookup(q)];
  }

  lemma TwoRotations(s: State, evs: seq<Event>, p: nat, q: nat) returns (all: seq<Event>)
    requires PromptRun(s, evs)
    requires var t := Run(s, evs);
      && p < q < |t.calls| && t.calls[p].token == t.calls[q].token && t.calls[p].token in t.rows
      && t.calls[p].stage.Found? && t.calls[q].stage.Found?
    ensures PromptRun(s, all) && ConsumesTwice(Run(s, all))
  {
    var n := |Run(s, evs).consumed|;
    RunLast(s, evs, Rotate(p, true));
    all := evs + [Rotate(p, true)];
    RunLast(s, all, Rotate(q, true));
    all := all + [Rotate(q, true)];
    var t := Run(s, all);
    assert t.consumed[n] == p && t.consumed[n + 1] == q;
    assert ConsumesTwice(t);
  }

  /** Given up too late to matter, or with a token that dies within the tail: the invariant goes on. */
  lemma HarmlessFailure(s: State, p: nat)
    requires TokenInv(s, {}) && p < |s.calls| && s.calls[p].settled.None? && s.calls[p].token < s.nextToken
      && !TooEarly(s, p)
    ensures TokenInv(Failed(s, p), if Done(s.calls[p]) then {} else {p})
  {
    if Done(s.calls[p]) {
      StepKeepsTokenInv(s, Fail(p), {});
    } else {
      var t := Failed(s, p);
      SettleKeepsMapInv(s, p);
      forall q | 0 <= q < |t.calls|
        ensures StageOk(t, q, {p})
        ensures p < q ==> t.calls[q].token != t.calls[p].token
      {
        assert StageOk(s, q, {});
        assert p < q ==> Apart(t.calls[p], t.calls[q]);
        assert CallOk(s, p);
      }
      forall i | 0 <= i < |t.consumed|
        ensures ConsumedOk(t, t.consumed[i])
      {
        assert ConsumedOk(s, s.consumed[i]);
      }
      assert LateOk(t, p);
    }
  }

  ghost predicate CanConsumeTwice(s: State) {
    exists more :: PromptRun(s, more) && ConsumesTwice(Run(s, more))
  }

  /**
   * From any state of a prompt run, giving a promise up lets its token be rotated twice in a run that is prompt from
   * there on exactly when the API still has the request in hand and the token would outlive the tail.
   */
  lemma OneEarlyTimeout(evs: seq<Event>, p: nat)
    requires PromptRun(Empty(), evs)
    requires var s := Run(Empty(), evs);
      p < |s.calls| && s.calls[p].settled.None? && s.calls[p].token < s.nextToken
    ensures var s := Run(Empty(), evs);
      TooEarly(s, p) <==> CanConsumeTwice(Failed(s, p))
  {
    var s := Run(Empty(), evs);
    RunKeepsTokenInv(Empty(), evs, {});
    if TooEarly(s, p) {
      var reading := SecondReading(s, p);
      var more := TwoRotations(Failed(s, p), reading, p, |s.calls|);
      assert CanConsumeTwice(Failed(s, p));
    } else {
      HarmlessFailure(s, p);
      var late := if Done(s.calls[p]) then {} else {p};
      forall more | PromptRun(Failed(s, p), more)
        ensures !ConsumesTwice(Run(Failed(s, p), more))
      {
        RunKeepsTokenInv(Failed(s, p), more, late);
        TokenInvConsumesOnce(Run(Failed(s, p), more), late);
      }
    }
  }

  /** Such a state is reached: a user logs in, and the API reads the token for the first caller. */
  lemma TimeoutCanConsumeTwice()
    ensures exists evs :: ConsumesTwice(Run(Empty(), evs)) && !PromptRun(Empty(), evs)
  {
    var evs := Reading();
    var s := Run(Empty(), evs);
    RunKeepsMapInv(Empty(), evs);
    var reading := SecondReading(s, 0);
    var more := TwoRotations(Failed(s, 0), reading, 0, 1);
    RunJoins(Empty(), evs, [Fail(0)] + more);
    assert ([Fail(0)] + more)[1..] == more;
    var all := evs + ([Fail(0)] + more);
    if PromptRun(Empty(), all) {
      TokensAreConsumedOnce(all);
    }
  }

  lemma {:induction false} RunJoins(s: State, xs: seq<Event>, ys: seq<Event>)
    ensures Run(s, xs + ys) == Run(Run(s, xs), ys)
    decreases xs
  {
    if xs == [] {
      assert xs + ys == ys;
    } else {
      assert (xs + ys)[1..] == xs[1..] + ys;
      RunJoins(Step(s, xs[0]), xs[1..], ys);
    }
  }

  /** A user who logs in at time 0 and whose token the API has just read. */
  lemma Reading() returns (evs: seq<Event>)
    ensures PromptRun(Empty(), evs)
    ensures Run(Empty(), evs)
            == State(0, [Call(0, 0, Found, None, false)], map[0 := 0], [Caller(0, 0, 0)],
                     map[0 := Row(7, false, REFRESH_TOKEN_MS)], 1, {}, [])
  {
    evs := [Login(7)];
    RunLast(Empty(), [], Login(7));
    RunLast(Empty(), evs, Arrive(0));
    evs := evs + [Arrive(0)];
    RunLast(Empty(), evs, Lookup(0));
    evs := evs + [Lookup(0)];
  }

  // ---------------------------------------------------------------- what `unavailable` says of the token

  /** Once the API is done with a request nothing changes what it did with it. */
  ghost predicate Final(s: State, t: State, p: nat)
    requires p < |s.calls|
  {
    p < |t.calls| && t.calls[p].stage == s.calls[p].stage && t.calls[p].token == s.calls[p].token
  }

  lemma {:induction false} DoneIsFinal(s: State, evs: seq<Event>, p: nat)
    requires p < |s.calls| && Done(s.calls[p])
    ensures Final(s, Run(s, evs), p)
    decreases evs
  {
    if evs != [] {
      DoneIsFinal(Step(s, evs[0]), evs[1..], p);
    }
  }

  /** The API will answer no to this call. */
  ghost predicate Hopeless(s: State, p: nat) {
    && p < |s.calls| && Refused(s.calls[p]) && s.calls[p].token < s.nextToken
    && (s.calls[p].stage.Sent? ==> !Usable(s, s.calls[p].token, s.clock))
  }

  lemma {:induction false} HopelessStays(s: State, evs: seq<Event>, p: nat)
    requires Hopeless(s, p)
    ensures Hopeless(Run(s, evs), p)
    decreases evs
  {
    if evs != [] {
      HopelessStays(Step(s, evs[0]), evs[1..], p);
    }
  }

  /** Whether the API may yet rotate the token of a request it is not done with. */
  ghost predicate MayRotate(s: State, p: nat)
    requires p < |s.calls|
  {
    s.calls[p].stage.Found? || (s.calls[p].stage.Sent? && Usable(s, s.calls[p].token, s.clock))
  }

  ghost predicate CanRotate(s: State, p: nat) {
    exists more :: p in Run(s, more).consumed
  }

  lemma MayRotateDoes(s: State, p: nat)
    requires LogOk(s) && p < |s.calls| && MayRotate(s, p)
    ensures CanRotate(s, p)
  {
    RunLast(s, [], Lookup(p));
    RunLast(s, [Lookup(p)], Rotate(p, true));
    var more := [Lookup(p)] + [Rotate(p, true)];
    var n := |s.consumed|;
    assert Run(s, more).consumed[n] == p;
  }

  /**
   * In any run, a promise that settled `unavailable` had rotated its token exactly when the API had got as far as an
   * answer other than a refusal. That is final once the API is done with the request, as it always is in a prompt run;
   * otherwise the token may still be rotated exactly when the row was found already or can still be used.
   */
  lemma WhatUnavailableMeans(evs: seq<Event>, p: nat)
    requires var s := Run(Empty(), evs);
      && p < |s.calls| && s.calls[p].token < s.nextToken
      && s.calls[p].settled.Some? && s.calls[p].settled.value.outcome.Unavailable?
    ensures var s := Run(Empty(), evs);
      && (p in s.consumed <==> RotatedFor(s.calls[p]))
      && (PromptRun(Empty(), evs) ==> Done(s.calls[p]))
      && (Done(s.calls[p]) ==> forall more :: Final(s, Run(s, more), p))
      && (CanRotate(s, p) <==> RotatedFor(s.calls[p]) || MayRotate(s, p))
  {
    var s := Run(Empty(), evs);
    RunKeepsLogOk(Empty(), evs);
    if PromptRun(Empty(), evs) {
      RunKeepsTokenInv(Empty(), evs, {});
      assert StageOk(s, p, {});
    }
    if Done(s.calls[p]) {
      forall more
        ensures Final(s, Run(s, more), p)
      {
        DoneIsFinal(s, more, p);
      }
    }
    if RotatedFor(s.calls[p]) {
      assert Run(s, []) == s && p in Run(s, []).consumed;
    } else if MayRotate(s, p) {
      MayRotateDoes(s, p);
    } else {
      forall more
        ensures p !in Run(s, more).consumed
      {
        HopelessStays(s, more, p);
        RunKeepsLogOk(s, more);
      }
    }
  }

  /** Both happen: a lost reply after the rotation, and a timeout before it. */
  lemma UnavailableCanMeanConsumed()
    ensures exists evs :: UnavailableYetConsumed(Run(Empty(), evs)) && PromptRun(Empty(), evs)
    ensures exists evs :: UnavailableYetConsumed(Run(Empty(), evs)) && !PromptRun(Empty(), evs)
  {
    var evs := Reading();
    RunLast(Empty(), evs, Rotate(0, true));
    var lost := evs + [Rotate(0, true)];
    RunLast(Empty(), lost, Fail(0));
    lost := lost + [Fail(0)];
    assert UnavailableYetConsumed(Run(Empty(), lost)) && PromptRun(Empty(), lost);
    RunLast(Empty(), evs, Fail(0));
    var early := evs + [Fail(0)];
    RunLast(Empty(), early, Rotate(0, true));
    early := early + [Rotate(0, true)];
    assert UnavailableYetConsumed(Run(Empty(), early)) && !PromptRun(Empty(), early);
  }

  /** The callers of the first promise were told `unavailable`, and its token is gone all the same. */
  ghost predicate UnavailableYetConsumed(s: State) {
    && |s.callers| == 1 && s.callers[0].promise == 0 && |s.calls| == 1 && s.callers[0].token == s.calls[0].token
    && s.calls[0].settled.Some? && s.calls[0].settled.value.outcome.Unavailable?
    && Revoked(s, s.calls[0].token)
  }

  // ---------------------------------------------------------------- the code that takes the steps

  class Sessions {
    var clock: nat
    var calls: seq<Call>
    var inFlight: map<Token, nat>
    var callers: seq<Caller>
    var rows: map<Token, Row>
    var nextToken: Token
    var disabled: set<User>
    var consumed: seq<nat>

    ghost function Now(): State
      reads this
    {
      State(clock, calls, inFlight, callers, rows, nextToken, disabled, consumed)
    }

    constructor ()
      ensures Now() == Empty()
    {
      clock, calls, inFlight, callers := 0, [], map[], [];
      rows, nextToken, disabled, consumed := map[], 0, {}, [];
    }

    /** `refreshSession`: the promise in flight if there is one, else a new call. */
    method RefreshSession(token: Token) returns (promise: nat)
      modifies this
      ensures Now() == Step(old(Now()), Arrive(token))
      ensures callers == old(callers) + [Caller(token, clock, promise)]
      ensures MapInv(old(Now())) ==> promise < |calls| && calls[promise].token == token && !calls[promise].cleaned
    {
      if token in inFlight {
        promise := inFlight[token];
      } else {
        promise := |calls|;
        calls := calls + [Call(token, clock, Sent, None, false)];
        inFlight := inFlight[token := promise];
      }
      callers := callers + [Caller(token, clock, promise)];
    }

    /** The promise settles with what the API replied, or `unavailable` if nothing came back. */
    method Settle(p: nat, answered: bool)
      requires p < |calls| && calls[p].settled.None? && (answered ==> calls[p].stage.Replied?)
      modifies this
      ensures Now() == Step(old(Now()), if answered then Deliver(p) else Fail(p))
    {
      var outcome := Unavailable;
      if answered {
        match calls[p].stage.reply {
          case Accepted(renewed) => outcome := Renewed(renewed);
          case Rejected => outcome := Invalid;
          case ServerError =>
        }
      }
      calls := calls[p := calls[p].(settled := Some(Settled(outcome, clock)))];
    }

    /** `setTimeout(() => refreshInFlight.delete(refreshToken), 5000)`, no earlier than due. */
    method TimerFires(p: nat)
      requires p < |calls| && !calls[p].cleaned && calls[p].settled.Some?
        && clock >= calls[p].settled.value.at + TAIL_MS
      modifies this
      ensures Now() == Step(old(Now()), Fire(p))
    {
      inFlight := inFlight - {calls[p].token};
      calls := calls[p := calls[p].(cleaned := true)];
    }

    /**
     * First half of `AuthService.refresh`: read the row, refuse a token that is unknown, revoked, expired or of a
     * disabled user.
     */
    method FindToken(p: nat)
      requires p < |calls| && calls[p].stage.Sent?
      modifies this
      ensures Now() == Step(old(Now()), Lookup(p))
    {
      var token := calls[p].token;
      var stage := Replied(Rejected);
      if token in rows && !rows[token].revoked {
        if rows[token].expiresAt < clock {
          rows := rows[token := rows[token].(revoked := true)];
        } else if rows[token].user !in disabled {
          stage := Found;
        }
      }
      calls := calls[p := calls[p].(stage := stage)];
    }

    /** Second half: save the row revoked, then issue the next token unless something fails on the way. */
    method RotateToken(p: nat, issued: bool)
      requires p < |calls| && calls[p].stage.Found? && calls[p].token in rows
      modifies this
      ensures Now() == Step(old(Now()), Rotate(p, issued))
    {
      var row := rows[calls[p].token];
      rows := rows[calls[p].token := row.(revoked := true)];
      consumed := consumed + [p];
      var reply := ServerError;
      if issued {
        var renewed := IssueRefreshToken(row.user);
        reply := Accepted(renewed);
      }
      calls := calls[p := calls[p].(stage := Replied(reply))];
    }

    method IssueRefreshToken(user: User) returns (token: Token)
      modifies this
      ensures Now() == Step(old(Now()), Login(user)) && token == old(nextToken)
    {
      token := nextToken;
      rows := rows[token := Row(user, false, clock + REFRESH_TOKEN_MS)];
      nextToken := nextToken + 1;
    }

    method LogOut(token: Token)
      modifies this
      ensures Now() == Step(old(Now()), Logout(token))
    {
      if token in rows {
        rows := rows[token := rows[token].(revoked := true)];
      }
    }
  }
}
