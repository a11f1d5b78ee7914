/**
 * What each step of a renewal does, field by field: who is given which promise, what the API does with a token, what a
 * promise settles with. Then what callers are told over whole runs, and what becomes of a token that was logged out.
 */
module SessionEffects {
  import opened Wrappers
  import opened SessionRefresh

  // ---------------------------------------------------------------- promises

  /** A caller gets the promise in flight for the token, or a new one; nobody else gets any. */
  lemma CallersAfter(s: State, ev: Event)
    ensures Step(s, ev).callers == s.callers +
      if ev.Arrive? then
        [Caller(ev.token, s.clock, if ev.token in s.inFlight then s.inFlight[ev.token] else |s.calls|)]
      else []
  {
  }

  /** A request is sent exactly for who finds no promise in flight. */
  lemma RequestsAfter(s: State, ev: Event)
    ensures |s.calls| <= |Step(s, ev).calls|
    ensures Step(s, ev).calls[|s.calls|..] ==
      if ev.Arrive? && ev.token !in s.inFlight then [Call(ev.token, s.clock, Sent, None, false)] else []
    ensures forall p :: 0 <= p < |s.calls| ==>
      Step(s, ev).calls[p].token == s.calls[p].token && Step(s, ev).calls[p].startedAt == s.calls[p].startedAt
  {
  }

  /** The five seconds since the promise settled are over, and its timer has not fired yet. */
  predicate Due(s: State, p: nat) {
    p < |s.calls| && !s.calls[p].cleaned && s.calls[p].settled.Some? && s.calls[p].settled.value.at + 5000 <= s.clock
  }

  /** A promise is in flight from who first asks until its timer. */
  lemma InFlightAfter(s: State, ev: Event, token: Token)
    ensures var t := Step(s, ev);
      var fires := ev.Fire? && Due(s, ev.call) && s.calls[ev.call].token == token;
      && (token in t.inFlight <==> (token in s.inFlight && !fires) || ev == Arrive(token))
      && (token in t.inFlight ==> t.inFlight[token] == if token in s.inFlight then s.inFlight[token] else |s.calls|)
    ensures forall p :: 0 <= p < |s.calls| ==>
      (Step(s, ev).calls[p].cleaned <==> s.calls[p].cleaned || (ev == Fire(p) && Due(s, p)))
  {
  }

  /** The step settles promise `p`, pending until then, with that outcome. */
  predicate Settles(s: State, ev: Event, p: nat, outcome: Outcome) {
    && p < |s.calls| && s.calls[p].settled.None?
    && match outcome
       case Renewed(token) => ev == Deliver(p) && s.calls[p].stage == Replied(Accepted(token))
       case Invalid => ev == Deliver(p) && s.calls[p].stage == Replied(Rejected)
       case Unavailable => ev == Fail(p) || (ev == Deliver(p) && s.calls[p].stage == Replied(ServerError))
  }

  /**
   * A pending promise settles once: as renewed with the token that the API accepted, as invalid when the API refused,
   * and as unavailable on an error of the server or of the network. Nothing else settles it and nothing changes it.
   */
  lemma SettledAfter(s: State, ev: Event, p: nat, outcome: Outcome)
    requires p < |s.calls|
    ensures var before, after := s.calls[p].settled, Step(s, ev).calls[p].settled;
      && (before.Some? ==> after == before)
      && (before.None? && Settles(s, ev, p, outcome) ==> after == Some(Settled(outcome, s.clock)))
      && (before.None? && after.Some? ==> Settles(s, ev, p, after.value.outcome))
  {
  }

  // ---------------------------------------------------------------- the API

  /** A known token neither revoked nor expired, of a user not disabled, is found; any other is refused. */
  lemma StageAfter(s: State, ev: Event, p: nat)
    requires p < |s.calls|
    ensures var c := s.calls[p];
      Step(s, ev).calls[p].stage ==
        if ev == Lookup(p) && c.stage == Sent then
          if c.token in s.rows && !s.rows[c.token].revoked && s.clock <= s.rows[c.token].expiresAt
             && s.rows[c.token].user !in s.disabled then Found
          else Replied(Rejected)
        else if ev.Rotate? && ev.call == p && c.stage == Found && c.token in s.rows then
          if ev.issued then Replied(Accepted(s.nextToken)) else Replied(ServerError)
        else if ev == Drop(p) && (c.stage == Sent || c.stage == Found) then Lost
        else c.stage
  {
  }

  /** The step rotates that token. */
  predicate Rotates(s: State, ev: Event, token: Token) {
    && ev.Rotate? && ev.call < |s.calls| && s.calls[ev.call].stage == Found && s.calls[ev.call].token == token
    && token in s.rows
  }

  /** The step finds that the token has expired. */
  predicate FindsExpired(s: State, ev: Event, token: Token) {
    && ev.Lookup? && ev.call < |s.calls| && s.calls[ev.call].stage == Sent && s.calls[ev.call].token == token
    && token in s.rows && s.rows[token].expiresAt < s.clock
  }

  /** A token is revoked exactly when it is rotated, logged out or found expired, and for good. */
  lemma RowAfter(s: State, ev: Event, token: Token)
    requires token in s.rows && token != s.nextToken
    ensures token in Step(s, ev).rows
    ensures var row, row' := s.rows[token], Step(s, ev).rows[token];
      && row'.user == row.user && row'.expiresAt == row.expiresAt
      && (row'.revoked <==> row.revoked || Rotates(s, ev, token) || ev == Logout(token) || FindsExpired(s, ev, token))
  {
  }

  /** The user a token is issued to: who logs in, or the owner of the token rotated if the API could issue another. */
  function IssuedTo(s: State, ev: Event): Option<User> {
    match ev
    case Login(user) => Some(user)
    case Rotate(p, issued) =>
      if issued && p < |s.calls| && Rotates(s, ev, s.calls[p].token) then Some(s.rows[s.calls[p].token].user) else None
    case _ => None
  }

  /** A new token is good for thirty days, and the next one will be another. */
  lemma TokensIssued(s: State, ev: Event)
    ensures var t := Step(s, ev);
      && (forall k :: k in t.rows <==> k in s.rows || (k == s.nextToken && IssuedTo(s, ev).Some?))
      && (IssuedTo(s, ev).Some? ==>
            t.rows[s.nextToken] == Row(IssuedTo(s, ev).value, false, s.clock + 30 * 86_400_000))
      && t.nextToken == s.nextToken + (if IssuedTo(s, ev).Some? then 1 else 0)
  {
  }

  /** The log of rotations, the users disabled and the clock. */
  lemma RestAfter(s: State, ev: Event)
    ensures var t := Step(s, ev);
      && t.consumed == s.consumed +
           (if ev.Rotate? && ev.call < |s.calls| && Rotates(s, ev, s.calls[ev.call].token) then [ev.call] else [])
      && t.disabled == s.disabled + (if ev.Disable? then {ev.user} else {})
      && t.clock == s.clock + (if ev.Tick? then ev.ms else 0)
  {
  }

  // ---------------------------------------------------------------- what callers are told, over runs

  ghost predicate SettledWith(s: State, p: nat, outcome: Outcome) {
    p < |s.calls| && s.calls[p].settled.Some? && s.calls[p].settled.value.outcome == outcome
  }

  /** Some step of the run settled the promise with that outcome. */
  ghost predicate SettledInRun(evs: seq<Event>, p: nat, outcome: Outcome) {
    exists n :: 0 <= n < |evs| && Settles(Run(Empty(), evs[..n]), evs[n], p, outcome)
  }

  /**
   * In any run, the callers of a promise are told that the token is invalid exactly when a refusal was delivered to
   * it, that it was renewed exactly when that token was, and unavailable exactly when the server or the network failed.
   */
  lemma {:induction false} SettledExactlyWhen(evs: seq<Event>, p: nat, outcome: Outcome)
    ensures SettledWith(Run(Empty(), evs), p, outcome) <==> SettledInRun(evs, p, outcome)
  {
    if evs != [] {
      var n := |evs| - 1;
      var s := Run(Empty(), evs[..n]);
      SettledExactlyWhen(evs[..n], p, outcome);
      assert evs == evs[..n] + [evs[n]];
      RunLast(Empty(), evs[..n], evs[n]);
      if p < |s.calls| {
        SettledAfter(s, evs[n], p, outcome);
      }
      InRunOfOneMore(evs[..n], evs[n], p, outcome);
    }
  }

  lemma InRunOfOneMore(evs: seq<Event>, ev: Event, p: nat, outcome: Outcome)
    ensures SettledInRun(evs + [ev], p, outcome) <==>
      SettledInRun(evs, p, outcome) || Settles(Run(Empty(), evs), ev, p, outcome)
  {
    var all := evs + [ev];
    assert all[..|evs|] == evs && all[|evs|] == ev;
    if SettledInRun(evs, p, outcome) {
      var n :| 0 <= n < |evs| && Settles(Run(Empty(), evs[..n]), evs[n], p, outcome);
      assert all[..n] == evs[..n] && all[n] == evs[n];
    }
    if SettledInRun(all, p, outcome) {
      var n :| 0 <= n < |all| && Settles(Run(Empty(), all[..n]), all[n], p, outcome);
      if n < |evs| {
        assert all[..n] == evs[..n] && all[n] == evs[n];
      }
    }
  }

  // ---------------------------------------------------------------- whose token is the one renewed

  /** The API answered call `p` with a token of the same user, newer than the one it took, which is gone. */
  ghost predicate IssuedOk(s: State, p: nat)
    requires p < |s.calls|
  {
    s.calls[p].stage.Replied? && s.calls[p].stage.reply.Accepted? ==>
      var taken, given := s.calls[p].token, s.calls[p].stage.reply.renewed;
      && taken in s.rows && given in s.rows && taken < given < s.nextToken
      && s.rows[given].user == s.rows[taken].user && s.rows[taken].revoked
  }

  ghost predicate TokensOk(s: State) {
    && (forall k :: k in s.rows ==> k < s.nextToken)
    && (forall p :: 0 <= p < |s.calls| ==> IssuedOk(s, p))
    && (forall p, q :: 0 <= p < q < |s.calls| && s.calls[p].stage.Replied? && s.calls[p].stage.reply.Accepted? ==>
          s.calls[q].stage != s.calls[p].stage)
  }

  lemma StepKeepsTokensOk(s: State, ev: Event)
    requires TokensOk(s)
    ensures TokensOk(Step(s, ev))
  {
    var t := Step(s, ev);
    TokensIssued(s, ev);
    RequestsAfter(s, ev);
    forall p | 0 <= p < |t.calls|
      ensures IssuedOk(t, p)
    {
      if p < |s.calls| {
        assert IssuedOk(s, p);
        StageAfter(s, ev, p);
        RowsOfCall(s, ev, p);
      }
    }
    forall p, q | 0 <= p < q < |t.calls| && t.calls[p].stage.Replied? && t.calls[p].stage.reply.Accepted?
      ensures t.calls[q].stage != t.calls[p].stage
    {
      if q < |s.calls| {
        StageAfter(s, ev, p);
        StageAfter(s, ev, q);
        assert IssuedOk(s, p) && IssuedOk(s, q);
      }
    }
  }

  lemma RowsOfCall(s: State, ev: Event, p: nat)
    requires TokensOk(s) && p < |s.calls|
    ensures forall k :: k in s.rows ==>
      && k in Step(s, ev).rows && Step(s, ev).rows[k].user == s.rows[k].user
      && (s.rows[k].revoked || Rotates(s, ev, k) ==> Step(s, ev).rows[k].revoked)
  {
    forall k | k in s.rows
      ensures k in Step(s, ev).rows && Step(s, ev).rows[k].user == s.rows[k].user
      ensures s.rows[k].revoked || Rotates(s, ev, k) ==> Step(s, ev).rows[k].revoked
    {
      RowAfter(s, ev, k);
    }
  }

  lemma {:induction false} RunKeepsTokensOk(s: State, evs: seq<Event>)
    requires TokensOk(s)
    ensures TokensOk(Run(s, evs))
    decreases evs
  {
    if evs != [] {
      StepKeepsTokensOk(s, evs[0]);
      RunKeepsTokensOk(Step(s, evs[0]), evs[1..]);
    }
  }

  lemma RenewedApart(s: State, p: nat, token: Token, q: nat, other: Token)
    requires TokensOk(s) && MapInv(s) && p != q
    requires SettledWith(s, p, Renewed(token)) && SettledWith(s, q, Renewed(other))
    ensures token != other
  {
    assert CallOk(s, p) && CallOk(s, q);
    assert s.calls[p].stage == Replied(Accepted(token)) && s.calls[q].stage == Replied(Accepted(other));
    assert p < q || q < p;
  }

  /**
   * In any run, a promise that settles as renewed hands out a token of the same user, newer than the one presented,
   * which is revoked; and no two promises hand out the same token.
   */
  lemma RenewedForTheSameUser(evs: seq<Event>, p: nat, token: Token)
    requires SettledWith(Run(Empty(), evs), p, Renewed(token))
    ensures var s := Run(Empty(), evs);
      && s.calls[p].token in s.rows && token in s.rows && s.calls[p].token < token
      && s.rows[token].user == s.rows[s.calls[p].token].user && s.rows[s.calls[p].token].revoked
      && forall q: nat :: q != p ==> !SettledWith(s, q, Renewed(token))
  {
    var s := Run(Empty(), evs);
    RunKeepsTokensOk(Empty(), evs);
    RunKeepsMapInv(Empty(), evs);
    assert CallOk(s, p) && IssuedOk(s, p);
    forall q: nat | q != p
      ensures !SettledWith(s, q, Renewed(token))
    {
      if SettledWith(s, q, Renewed(token)) {
        RenewedApart(s, p, token, q, token);
      }
    }
  }

  // ---------------------------------------------------------------- logging out

  /** Nobody has the row in hand but the calls of `s` that had found it, none of them rotated since. */
  ghost predicate Shut(s: State, t: State, token: Token) {
    && Revoked(t, token) && token < t.nextToken && |s.calls| <= |t.calls|
    && (forall p :: 0 <= p < |t.calls| && t.calls[p].token == token && t.calls[p].stage.Found? ==>
          p < |s.calls| && s.calls[p].stage.Found?)
    && (forall p :: p in t.consumed ==>
          p < |t.calls|
            && (t.calls[p].token == token ==> p in s.consumed || (p < |s.calls| && s.calls[p].stage.Found?)))
  }

  lemma StepKeepsShut(s: State, t: State, ev: Event, token: Token)
    requires Shut(s, t, token)
    ensures Shut(s, Step(t, ev), token)
  {
    var u := Step(t, ev);
    RowAfter(t, ev, token);
    RequestsAfter(t, ev);
    RestAfter(t, ev);
    TokensIssued(t, ev);
    forall p | 0 <= p < |u.calls| && u.calls[p].token == token && u.calls[p].stage.Found?
      ensures p < |s.calls| && s.calls[p].stage.Found?
    {
      if p < |t.calls| {
        StageAfter(t, ev, p);
      }
    }
  }

  lemma {:induction false} RunKeepsShut(s: State, t: State, evs: seq<Event>, token: Token)
    requires Shut(s, t, token)
    ensures Shut(s, Run(t, evs), token)
    decreases evs
  {
    if evs != [] {
      StepKeepsShut(s, t, evs[0], token);
      RunKeepsShut(s, Step(t, evs[0]), evs[1..], token);
    }
  }

  /**
   * In any run, a token logged out is refused to whoever presents it afterwards, and is never rotated again but by a
   * request for which the API had read its row before.
   */
  lemma LoggedOutIsRefused(before: seq<Event>, later: seq<Event>, token: Token, p: nat)
    requires token in Run(Empty(), before).rows
    ensures var s, t := Run(Empty(), before), Run(Step(Run(Empty(), before), Logout(token)), later);
      && Revoked(t, token)
      && (p < |t.calls| && t.calls[p].token == token && t.calls[p].stage.Sent? ==>
            Step(t, Lookup(p)).calls[p].stage == Replied(Rejected))
      && (p in t.consumed && p < |t.calls| && t.calls[p].token == token ==>
            p in s.consumed || (p < |s.calls| && s.calls[p].stage.Found?))
  {
    var s := Run(Empty(), before);
    var out := Step(s, Logout(token));
    RunKeepsTokensOk(Empty(), before);
    RunKeepsLogOk(Empty(), before);
    assert Shut(s, out, token);
    RunKeepsShut(s, out, later, token);
    var t := Run(out, later);
    if p < |t.calls| {
      StageAfter(t, Lookup(p), p);
    }
  }

  // ---------------------------------------------------------------- a whole renewal

  /** The steps of a renewal that finds no promise in flight and whose reply arrives. */
  function Renewal(s: State, token: Token): seq<Event> {
    [Arrive(token), Lookup(|s.calls|), Rotate(|s.calls|, true), Deliver(|s.calls|)]
  }

  lemma RunOfTwo(s: State, a: Event, b: Event)
    ensures Run(s, [a, b]) == Step(Step(s, a), b)
  {
    assert [a, b][1..] == [b] && [b][1..] == [];
    assert Run(Step(s, a), [b]) == Run(Step(Step(s, a), b), []);
  }

  lemma RunOfFour(s: State, a: Event, b: Event, c: Event, d: Event)
    ensures Run(s, [a, b, c, d]) == Step(Step(Step(Step(s, a), b), c), d)
  {
    assert [a, b, c, d] == [a, b] + [c, d];
    RunJoins(s, [a, b], [c, d]);
    RunOfTwo(s, a, b);
    RunOfTwo(Step(Step(s, a), b), c, d);
  }

  /**
   * From any state, who presents a token with nothing in flight for it is given a new one exactly when the token could
   * be used, and told that it is invalid exactly when not; the new one can be used for thirty days.
   */
  lemma RenewedExactlyWhenUsable(s: State, token: Token)
    requires token !in s.inFlight
    ensures var p, t := |s.calls|, Run(s, Renewal(s, token));
      if Usable(s, token, s.clock)
      then SettledWith(t, p, Renewed(s.nextToken)) && Usable(t, s.nextToken, s.clock + 30 * 86_400_000)
      else SettledWith(t, p, Invalid) && t.nextToken == s.nextToken
  {
    RunOfFour(s, Arrive(token), Lookup(|s.calls|), Rotate(|s.calls|, true), Deliver(|s.calls|));
  }
}
