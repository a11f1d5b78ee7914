/**
 * Conciliation of invoices with expenses already typed by hand
 * (stp-api/src/fiscal-invoices/expense-match.ts): scoring one pair, and the one-to-one proposal of `suggestAll`.
 */
module ExpenseMatch {
  import opened Wrappers

  type Id = nat

  // ---------------------------------------------------------------- scoring one pair

  datatype Level = Strong | Possible

  datatype Match = Match(expense: Id, score: nat, level: Level)

  /** What says that the expense is from the invoice's supplier: its RNC, its name in the text, or nothing. */
  datatype Evidence = SameRnc | SimilarName | NoEvidence

  const MIN_SCORE := 45

  function Distance(a: int, b: int): nat {
    if a >= b then a - b else b - a
  }

  function SupplierPoints(e: Evidence): nat {
    match e
    case SameRnc => 40
    case SimilarName => 25
    case NoEvidence => 0
  }

  /** Amounts are cents; a `base` of 0 means the invoice does not say it. */
  function AmountPoints(amount: int, total: nat, base: nat): nat {
    var diff := Distance(amount, total);
    if diff <= 1 then 40
    else if diff <= 100 || 200 * diff <= total then 30
    else if base != 0 && Distance(amount, base) <= 1 then 30
    else if 20 * diff <= total then 8
    else 0
  }

  function DatePoints(days: nat): nat {
    if days <= 3 then 20 else if days <= 10 then 12 else if days <= 30 then 4 else 0
  }

  function ScoreExpense(expense: Id, evidence: Evidence, amount: int, total: nat, base: nat, days: nat): Option<Match> {
    var supplier, money := SupplierPoints(evidence), AmountPoints(amount, total, base);
    var score := supplier + money + DatePoints(days);
    if supplier == 0 && money < 8 then None
    else if score < MIN_SCORE then None
    else Some(Match(expense, score, if supplier > 0 && money >= 30 && days <= 10 then Strong else Possible))
  }

  /** Better evidence and a closer date never lower the score, never drop a suggestion and never weaken its level. */
  lemma ScoreIsMonotone(expense: Id, evidence: Evidence, evidence': Evidence, amount: int, total: nat, base: nat,
      days: nat, days': nat)
    requires SupplierPoints(evidence) <= SupplierPoints(evidence') && days' <= days
    ensures var low := ScoreExpense(expense, evidence, amount, total, base, days);
      var high := ScoreExpense(expense, evidence', amount, total, base, days');
      low.Some? ==>
        high.Some? && low.value.score <= high.value.score && (low.value.level.Strong? ==> high.value.level.Strong?)
  {
  }

  /** What an amount is worth: the same to the cent, almost the same, the same as the base without tax, or near. */
  lemma AmountPointsTable(amount: int, total: nat, base: nat)
    ensures var p, off := AmountPoints(amount, total, base), if amount >= total then amount - total else total - amount;
      var near := off <= 100 || 1000 * off <= 5 * total;
      var plain := base > 0 && -1 <= amount - base <= 1;
      && (p == 40 <==> off <= 1)
      && (p == 30 <==> off > 1 && (near || plain))
      && (p == 8 <==> off > 1 && !near && !plain && 100 * off <= 5 * total)
      && p in {0, 8, 30, 40}
  {
  }

  /**
   * An expense is suggested exactly when supplier, amount and date add up to 45 points of 100 and do not rest on the
   * date alone; the suggestion is strong exactly with a supplier, an amount almost right and ten days at most.
   */
  lemma WhenSuggested(expense: Id, evidence: Evidence, amount: int, total: nat, base: nat, days: nat)
    ensures var money := AmountPoints(amount, total, base);
      var supplier := if evidence == SameRnc then 40 else if evidence == SimilarName then 25 else 0;
      var date := if days <= 3 then 20 else if days <= 10 then 12 else if days <= 30 then 4 else 0;
      var m := ScoreExpense(expense, evidence, amount, total, base, days);
      && (m.Some? <==> supplier + money + date >= 45 && (supplier > 0 || money > 0))
      && (m.Some? ==> m.value.expense == expense && m.value.score == supplier + money + date <= 100)
      && (m.Some? ==> (m.value.level == Strong <==> supplier > 0 && money >= 30 && days <= 10))
  {
    AmountPointsTable(amount, total, base);
  }

  // ---------------------------------------------------------------- sorting by score

  /** `Array.sort` by descending score is stable: `x` goes after everything that scores as much. */
  function Insert<T>(xs: seq<T>, x: T, score: T -> int): seq<T> {
    if xs != [] && score(xs[|xs| - 1]) < score(x)
    then Insert(xs[..|xs| - 1], x, score) + [xs[|xs| - 1]]
    else xs + [x]
  }

  function SortByScore<T>(xs: seq<T>, score: T -> int): seq<T> {
    if xs == [] then [] else Insert(SortByScore(xs[..|xs| - 1], score), xs[|xs| - 1], score)
  }

  ghost predicate Descending<T>(xs: seq<T>, score: T -> int) {
    forall i, j :: 0 <= i < j < |xs| ==> score(xs[i]) >= score(xs[j])
  }

  lemma {:induction false} InsertKeepsAll<T>(xs: seq<T>, x: T, score: T -> int)
    ensures multiset(Insert(xs, x, score)) == multiset(xs) + multiset{x}
  {
    if xs != [] && score(xs[|xs| - 1]) < score(x) {
      InsertKeepsAll(xs[..|xs| - 1], x, score);
      assert xs == xs[..|xs| - 1] + [xs[|xs| - 1]];
    }
  }

  ghost predicate AtLeast<T>(xs: seq<T>, bound: int, score: T -> int) {
    forall i :: 0 <= i < |xs| ==> score(xs[i]) >= bound
  }

  lemma {:induction false} InsertKeepsBound<T>(xs: seq<T>, x: T, bound: int, score: T -> int)
    requires AtLeast(xs, bound, score) && score(x) >= bound
    ensures AtLeast(Insert(xs, x, score), bound, score)
  {
    if xs != [] && score(xs[|xs| - 1]) < score(x) {
      InsertKeepsBound(xs[..|xs| - 1], x, bound, score);
    }
  }

  lemma {:induction false} InsertKeepsOrder<T>(xs: seq<T>, x: T, score: T -> int)
    requires Descending(xs, score)
    ensures Descending(Insert(xs, x, score), score)
  {
    if xs != [] && score(xs[|xs| - 1]) < score(x) {
      var n := |xs| - 1;
      InsertKeepsOrder(xs[..n], x, score);
      InsertKeepsBound(xs[..n], x, score(xs[n]), score);
    }
  }

  lemma {:induction false} SortIsDescending<T>(xs: seq<T>, score: T -> int)
    ensures Descending(SortByScore(xs, score), score)
  {
    if xs != [] {
      SortIsDescending(xs[..|xs| - 1], score);
      InsertKeepsOrder(SortByScore(xs[..|xs| - 1], score), xs[|xs| - 1], score);
    }
  }

  lemma {:induction false} SortedByScore<T>(xs: seq<T>, score: T -> int)
    ensures Descending(SortByScore(xs, score), score)
    ensures multiset(SortByScore(xs, score)) == multiset(xs)
  {
    SortIsDescending(xs, score);
    if xs != [] {
      var n := |xs| - 1;
      SortedByScore(xs[..n], score);
      InsertKeepsAll(SortByScore(xs[..n], score), xs[n], score);
      assert xs == xs[..n] + [xs[n]];
    }
  }

  /** The elements of one score, in order. */
  function WithScore<T>(xs: seq<T>, score: T -> int, v: int): seq<T> {
    if xs == [] then []
    else WithScore(xs[..|xs| - 1], score, v) + if score(xs[|xs| - 1]) == v then [xs[|xs| - 1]] else []
  }

  lemma {:induction false} InsertIsStable<T>(xs: seq<T>, x: T, score: T -> int, v: int)
    requires Descending(xs, score)
    ensures WithScore(Insert(xs, x, score), score, v) == WithScore(xs, score, v) + if score(x) == v then [x] else []
  {
    if xs != [] && score(xs[|xs| - 1]) < score(x) {
      var n := |xs| - 1;
      InsertIsStable(xs[..n], x, score, v);
      var before := Insert(xs[..n], x, score);
      assert (before + [xs[n]])[..|before|] == before;
    } else {
      assert (xs + [x])[..|xs|] == xs;
    }
  }

  /** Of those that score the same, the first met stays first. */
  lemma {:induction false} SortIsStable<T>(xs: seq<T>, score: T -> int, v: int)
    ensures WithScore(SortByScore(xs, score), score, v) == WithScore(xs, score, v)
  {
    if xs != [] {
      var n := |xs| - 1;
      SortIsStable(xs[..n], score, v);
      SortIsDescending(xs[..n], score);
      InsertIsStable(SortByScore(xs[..n], score), xs[n], score, v);
    }
  }

  /** What is in order already is left alone. */
  lemma {:induction false} SortOfSorted<T>(xs: seq<T>, score: T -> int)
    requires Descending(xs, score)
    ensures SortByScore(xs, score) == xs
  {
    if xs != [] {
      var n := |xs| - 1;
      SortOfSorted(xs[..n], score);
      assert n > 0 ==> score(xs[n - 1]) >= score(xs[n]);
      assert xs == xs[..n] + [xs[n]];
    }
  }

  // ---------------------------------------------------------------- candidate pairs

  datatype Pair = Pair(invoice: Id, candidate: Match)

  /** An invoice with the expenses that score against it, in the order the expenses were read. */
  datatype Candidates = Candidates(invoice: Id, scored: seq<Match>)

  function MatchScore(): Match -> int {
    (m: Match) => m.score
  }

  function PairScore(): Pair -> int {
    (p: Pair) => p.candidate.score
  }

  const LIMIT := 5

  /** `matchExpenses`: the best five. */
  function MatchExpenses(c: Candidates): seq<Match> {
    var sorted := SortByScore(c.scored, MatchScore());
    if |sorted| <= LIMIT then sorted else sorted[..LIMIT]
  }

  function PairsOf(invoice: Id, matches: seq<Match>): (r: seq<Pair>)
    ensures |r| == |matches| && forall i :: 0 <= i < |r| ==> r[i] == Pair(invoice, matches[i])
  {
    seq(|matches|, i requires 0 <= i < |matches| => Pair(invoice, matches[i]))
  }

  function AllPairs(cs: seq<Candidates>): seq<Pair> {
    if cs == [] then []
    else AllPairs(cs[..|cs| - 1]) + PairsOf(cs[|cs| - 1].invoice, MatchExpenses(cs[|cs| - 1]))
  }

  // ---------------------------------------------------------------- which candidates are kept

  lemma SplitsAt<T>(xs: seq<T>, k: nat)
    requires k <= |xs|
    ensures multiset(xs) == multiset(xs[..k]) + multiset(xs[k..])
  {
    assert xs == xs[..k] + xs[k..];
  }

  /** What is kept and what is left out are the two parts of the list in order. */
  lemma KeptAndLeftOut(c: Candidates)
    ensures var kept, sorted := MatchExpenses(c), SortByScore(c.scored, MatchScore());
      && |kept| == (if |c.scored| <= 5 then |c.scored| else 5) && kept == sorted[..|kept|]
      && multiset(c.scored) == multiset(kept) + multiset(sorted[|kept|..])
  {
    var sorted := SortByScore(c.scored, MatchScore());
    SortedByScore(c.scored, MatchScore());
    assert |multiset(sorted)| == |multiset(c.scored)|;
    SplitsAt(sorted, |MatchExpenses(c)|);
  }

  /** At most five are kept, all of them if there are no more, and none left out scores more than any of those kept. */
  lemma TheBestAreKept(c: Candidates)
    ensures var kept := MatchExpenses(c);
      && |kept| == (if |c.scored| <= 5 then |c.scored| else 5)
      && multiset(kept) <= multiset(c.scored)
      && (forall i, j :: 0 <= i < j < |kept| ==> kept[i].score >= kept[j].score)
      && (forall out, k :: out in multiset(c.scored) - multiset(kept) && k in kept ==> out.score <= k.score)
  {
    KeptAndLeftOut(c);
    KeptInOrder(c);
    forall out, k | out in multiset(c.scored) - multiset(MatchExpenses(c)) && k in MatchExpenses(c)
      ensures out.score <= k.score
    {
      LeftOutScoresLess(c, out, k);
    }
  }

  lemma KeptInOrder(c: Candidates)
    ensures forall i, j :: 0 <= i < j < |MatchExpenses(c)| ==> MatchExpenses(c)[i].score >= MatchExpenses(c)[j].score
  {
    SortedByScore(c.scored, MatchScore());
    InOrder(SortByScore(c.scored, MatchScore()));
  }

  lemma LeftOutScoresLess(c: Candidates, out: Match, k: Match)
    requires out in multiset(c.scored) - multiset(MatchExpenses(c)) && k in MatchExpenses(c)
    ensures out.score <= k.score
  {
    KeptAndLeftOut(c);
    var kept, sorted := MatchExpenses(c), SortByScore(c.scored, MatchScore());
    SortedByScore(c.scored, MatchScore());
    InOrder(sorted);
    assert out in multiset(sorted[|kept|..]);
    LaterScoresLess(sorted, |kept|, k, out);
  }

  lemma LaterScoresLess(sorted: seq<Match>, n: nat, k: Match, out: Match)
    requires n <= |sorted| && forall i, j :: 0 <= i < j < |sorted| ==> sorted[i].score >= sorted[j].score
    requires k in sorted[..n] && out in sorted[n..]
    ensures out.score <= k.score
  {
    var i :| 0 <= i < n && sorted[i] == k;
    var j :| n <= j < |sorted| && sorted[j] == out;
  }

  lemma InOrder(ms: seq<Match>)
    requires Descending(ms, MatchScore())
    ensures forall i, j :: 0 <= i < j < |ms| ==> ms[i].score >= ms[j].score
  {
    forall i, j | 0 <= i < j < |ms|
      ensures ms[i].score >= ms[j].score
    {
      assert MatchScore()(ms[i]) >= MatchScore()(ms[j]);
    }
  }

  /** The candidate pairs are the invoices with the expenses kept for them. */
  lemma {:induction false} PairsAreTheKept(cs: seq<Candidates>)
    ensures forall p :: p in AllPairs(cs) <==>
      exists c :: c in cs && p.invoice == c.invoice && p.candidate in MatchExpenses(c)
  {
    if cs != [] {
      var n := |cs| - 1;
      PairsAreTheKept(cs[..n]);
      var last := PairsOf(cs[n].invoice, MatchExpenses(cs[n]));
      forall p
        ensures p in last <==> p.invoice == cs[n].invoice && p.candidate in MatchExpenses(cs[n])
      {
        if p.invoice == cs[n].invoice && p.candidate in MatchExpenses(cs[n]) {
          var i :| 0 <= i < |MatchExpenses(cs[n])| && MatchExpenses(cs[n])[i] == p.candidate;
          assert last[i] == p;
        }
      }
      assert cs == cs[..n] + [cs[n]];
    }
  }

  /** An invoice with any expense that scores has its best one among the pairs. */
  lemma BestIsAmongThePairs(cs: seq<Candidates>, c: Candidates)
    requires c in cs && c.scored != []
    ensures MatchExpenses(c) != [] && Pair(c.invoice, MatchExpenses(c)[0]) in AllPairs(cs)
    ensures forall m :: m in c.scored ==> m.score <= MatchExpenses(c)[0].score
  {
    TheBestAreKept(c);
    PairsAreTheKept(cs);
    var kept := MatchExpenses(c);
    assert kept[0] in kept;
    forall m | m in c.scored
      ensures m.score <= kept[0].score
    {
      if m !in kept {
        assert m in multiset(c.scored) - multiset(kept);
      }
    }
  }

  // ---------------------------------------------------------------- the greedy assignment

  predicate HasInvoice(ps: seq<Pair>, i: Id) {
    exists p :: p in ps && p.invoice == i
  }

  predicate HasExpense(ps: seq<Pair>, e: Id) {
    exists p :: p in ps && p.candidate.expense == e
  }

  /** Takes each pair, in order, whose invoice and expense are both still free. */
  function Greedy(pairs: seq<Pair>): seq<Pair> {
    if pairs == [] then []
    else
      var chosen := Greedy(pairs[..|pairs| - 1]);
      var p := pairs[|pairs| - 1];
      if HasInvoice(chosen, p.invoice) || HasExpense(chosen, p.candidate.expense) then chosen else chosen + [p]
  }

  /** What `suggestAll` proposes. */
  function Proposal(cs: seq<Candidates>): seq<Pair> {
    Greedy(SortByScore(AllPairs(cs), PairScore()))
  }

  ghost predicate OneToOne(ps: seq<Pair>) {
    forall a, b :: 0 <= a < b < |ps| ==>
      ps[a].invoice != ps[b].invoice && ps[a].candidate.expense != ps[b].candidate.expense
  }

  /** `p` was passed over for a pair that shares its invoice or its expense and scores at least as much. */
  ghost predicate Outscored(chosen: seq<Pair>, p: Pair) {
    exists g :: g in chosen && (g.invoice == p.invoice || g.candidate.expense == p.candidate.expense)
      && g.candidate.score >= p.candidate.score
  }

  lemma {:induction false} GreedyIsOneToOne(pairs: seq<Pair>)
    ensures OneToOne(Greedy(pairs))
    ensures forall p :: p in Greedy(pairs) ==> p in pairs
  {
    if pairs != [] {
      var n := |pairs| - 1;
      GreedyIsOneToOne(pairs[..n]);
      var chosen := Greedy(pairs[..n]);
      forall a | 0 <= a < |chosen| && !HasInvoice(chosen, pairs[n].invoice)
        && !HasExpense(chosen, pairs[n].candidate.expense)
        ensures chosen[a].invoice != pairs[n].invoice && chosen[a].candidate.expense != pairs[n].candidate.expense
      {
        assert chosen[a] in chosen;
      }
    }
  }

  lemma {:induction false} GreedyOutscores(pairs: seq<Pair>)
    requires Descending(pairs, PairScore())
    ensures forall p :: p in pairs ==> Outscored(Greedy(pairs), p)
  {
    if pairs != [] {
      var n := |pairs| - 1;
      forall i, j | 0 <= i < j < n
        ensures PairScore()(pairs[..n][i]) >= PairScore()(pairs[..n][j])
      {
        assert PairScore()(pairs[i]) >= PairScore()(pairs[j]);
      }
      GreedyOutscores(pairs[..n]);
      forall p | p in pairs
        ensures Outscored(Greedy(pairs), p)
      {
        if p in pairs[..n] {
          StaysOutscored(pairs, p);
        } else {
          LastIsOutscored(pairs);
        }
      }
    }
  }

  lemma StaysOutscored(pairs: seq<Pair>, p: Pair)
    requires pairs != [] && Outscored(Greedy(pairs[..|pairs| - 1]), p)
    ensures Outscored(Greedy(pairs), p)
  {
    var before := Greedy(pairs[..|pairs| - 1]);
    var g :| g in before && (g.invoice == p.invoice || g.candidate.expense == p.candidate.expense)
      && g.candidate.score >= p.candidate.score;
    assert g in Greedy(pairs);
  }

  lemma LastIsOutscored(pairs: seq<Pair>)
    requires pairs != [] && Descending(pairs, PairScore())
    ensures Outscored(Greedy(pairs), pairs[|pairs| - 1])
  {
    var n := |pairs| - 1;
    var last, chosen := pairs[n], Greedy(pairs[..n]);
    GreedyIsOneToOne(pairs[..n]);
    if HasInvoice(chosen, last.invoice) || HasExpense(chosen, last.candidate.expense) {
      var g :| g in chosen && (g.invoice == last.invoice || g.candidate.expense == last.candidate.expense);
      var k :| 0 <= k < n && pairs[k] == g;
      assert PairScore()(pairs[k]) >= PairScore()(pairs[n]);
      assert g in Greedy(pairs);
    } else {
      assert last in Greedy(pairs);
    }
  }

  // ---------------------------------------------------------------- what the proposal promises

  /** The invoice would rather have a pair of that score: it has none, or one that scores less. */
  ghost predicate InvoiceGains(ps: seq<Pair>, i: Id, score: int) {
    forall g :: g in ps && g.invoice == i ==> g.candidate.score < score
  }

  ghost predicate ExpenseGains(ps: seq<Pair>, e: Id, score: int) {
    forall g :: g in ps && g.candidate.expense == e ==> g.candidate.score < score
  }

  /**
   * The proposal is made of candidate pairs, repeats no invoice and no expense, cannot be extended, and is stable:
   * there is no candidate pair that both its invoice and its expense would gain from.
   */
  lemma ProposalIsStable(cs: seq<Candidates>)
    ensures OneToOne(Proposal(cs))
    ensures forall p :: p in Proposal(cs) ==> p in AllPairs(cs)
    ensures forall p :: p in AllPairs(cs) ==>
      HasInvoice(Proposal(cs), p.invoice) || HasExpense(Proposal(cs), p.candidate.expense)
    ensures forall p :: p in AllPairs(cs) ==>
      !(InvoiceGains(Proposal(cs), p.invoice, p.candidate.score)
        && ExpenseGains(Proposal(cs), p.candidate.expense, p.candidate.score))
  {
    ProposalOutscores(cs);
  }

  lemma ProposalOutscores(cs: seq<Candidates>)
    ensures OneToOne(Proposal(cs))
    ensures forall p :: p in Proposal(cs) ==> p in AllPairs(cs)
    ensures forall p :: p in AllPairs(cs) ==> Outscored(Proposal(cs), p)
  {
    var pairs := AllPairs(cs);
    var sorted := SortByScore(pairs, PairScore());
    SortedByScore(pairs, PairScore());
    GreedyIsOneToOne(sorted);
    GreedyOutscores(sorted);
    forall p
      ensures p in pairs <==> p in sorted
    {
      assert p in pairs <==> p in multiset(pairs);
      assert p in sorted <==> p in multiset(sorted);
    }
  }

  /** Somebody has the expense in a pair worth at least that. */
  ghost predicate ExpenseTaken(ps: seq<Pair>, e: Id, score: int) {
    exists g :: g in ps && g.candidate.expense == e && g.candidate.score >= score
  }

  /** The invoice has a pair worth at least that. */
  ghost predicate InvoiceServed(ps: seq<Pair>, i: Id, score: int) {
    exists g :: g in ps && g.invoice == i && g.candidate.score >= score
  }

  /**
   * For every expense that scores against an invoice, kept or not: the invoice is proposed one that scores as much, or
   * the expense goes to an invoice it suits as well, or it was left out and the five kept all go to others that they
   * suit at least as well as it suits this one.
   */
  lemma NothingBetterIsLost(cs: seq<Candidates>, c: Candidates, m: Match)
    requires c in cs && m in c.scored
    ensures var ps := Proposal(cs);
      || InvoiceServed(ps, c.invoice, m.score)
      || ExpenseTaken(ps, m.expense, m.score)
      || (|MatchExpenses(c)| == 5 && forall k :: k in MatchExpenses(c) ==> ExpenseTaken(ps, k.expense, m.score))
  {
    var ps, kept := Proposal(cs), MatchExpenses(c);
    ProposalOutscores(cs);
    PairsAreTheKept(cs);
    TheBestAreKept(c);
    forall k | k in kept
      ensures InvoiceServed(ps, c.invoice, k.score) || ExpenseTaken(ps, k.expense, k.score)
    {
      KeptIsOutscored(cs, c, k);
    }
    if m !in kept {
      assert m in multiset(c.scored) - multiset(kept);
      KeptAllWhenFew(c, m);
      if !InvoiceServed(ps, c.invoice, m.score) {
        forall k | k in kept
          ensures ExpenseTaken(ps, k.expense, m.score)
        {
          LowerIsServed(ps, c.invoice, k, m.score);
        }
      }
    }
  }

  lemma LowerIsServed(ps: seq<Pair>, i: Id, k: Match, score: int)
    requires InvoiceServed(ps, i, k.score) || ExpenseTaken(ps, k.expense, k.score)
    requires score <= k.score
    ensures InvoiceServed(ps, i, score) || ExpenseTaken(ps, k.expense, score)
  {
    if InvoiceServed(ps, i, k.score) {
      var g :| g in ps && g.invoice == i && g.candidate.score >= k.score;
      assert InvoiceServed(ps, i, score);
    } else {
      var g :| g in ps && g.candidate.expense == k.expense && g.candidate.score >= k.score;
      assert ExpenseTaken(ps, k.expense, score);
    }
  }

  lemma KeptAllWhenFew(c: Candidates, m: Match)
    requires m in c.scored && m !in MatchExpenses(c)
    ensures |MatchExpenses(c)| == 5
  {
    KeptAndLeftOut(c);
    assert m in multiset(c.scored);
    var rest := SortByScore(c.scored, MatchScore())[|MatchExpenses(c)|..];
    assert m in rest;
  }

  lemma KeptIsOutscored(cs: seq<Candidates>, c: Candidates, k: Match)
    requires c in cs && k in MatchExpenses(c)
    ensures InvoiceServed(Proposal(cs), c.invoice, k.score) || ExpenseTaken(Proposal(cs), k.expense, k.score)
  {
    ProposalOutscores(cs);
    PairsAreTheKept(cs);
    var p := Pair(c.invoice, k);
    assert p in AllPairs(cs) && Outscored(Proposal(cs), p);
    var g :| g in Proposal(cs) && (g.invoice == p.invoice || g.candidate.expense == p.candidate.expense)
      && g.candidate.score >= p.candidate.score;
    if g.invoice == p.invoice {
      assert InvoiceServed(Proposal(cs), c.invoice, k.score);
    } else {
      assert ExpenseTaken(Proposal(cs), k.expense, k.score);
    }
  }

  // ---------------------------------------------------------------- half of the best possible

  function TotalScore(ps: seq<Pair>): nat {
    if ps == [] then 0 else TotalScore(ps[..|ps| - 1]) + ps[|ps| - 1].candidate.score
  }

  /** The score that `ps` gives to key `k`. */
  function ScoreOf(ps: seq<Pair>, key: Pair -> Id, k: Id): nat {
    if ps == [] then 0
    else
      var last := ps[|ps| - 1];
      ScoreOf(ps[..|ps| - 1], key, k) + if key(last) == k then last.candidate.score else 0
  }

  /** The score that `chosen` gives, all together, to the keys of `ps`. */
  function Charge(ps: seq<Pair>, chosen: seq<Pair>, key: Pair -> Id): nat {
    if ps == [] then 0 else Charge(ps[..|ps| - 1], chosen, key) + ScoreOf(chosen, key, key(ps[|ps| - 1]))
  }

  ghost predicate DistinctKeys(ps: seq<Pair>, key: Pair -> Id) {
    forall a, b :: 0 <= a < b < |ps| ==> key(ps[a]) != key(ps[b])
  }

  /** How much one more chosen pair `g` adds to what is charged: its score, at most once. */
  lemma {:induction false} ChargeOfOneMore(ps: seq<Pair>, chosen: seq<Pair>, g: Pair, key: Pair -> Id)
    requires DistinctKeys(ps, key)
    ensures Charge(ps, chosen + [g], key) <= Charge(ps, chosen, key) + g.candidate.score
    ensures (forall p :: p in ps ==> key(p) != key(g)) ==> Charge(ps, chosen + [g], key) == Charge(ps, chosen, key)
  {
    if ps != [] {
      var n := |ps| - 1;
      ChargeOfOneMore(ps[..n], chosen, g, key);
      assert (chosen + [g])[..|chosen|] == chosen;
      if key(ps[n]) == key(g) {
        forall p | p in ps[..n]
          ensures key(p) != key(g)
        {
          var a :| 0 <= a < n && ps[a] == p;
        }
      }
    }
  }

  /** Keys that are not repeated are never charged more than what was chosen in all. */
  lemma {:induction false} ChargeIsBounded(ps: seq<Pair>, chosen: seq<Pair>, key: Pair -> Id)
    requires DistinctKeys(ps, key)
    ensures Charge(ps, chosen, key) <= TotalScore(chosen)
  {
    if chosen == [] {
      NothingToCharge(ps, key);
    } else {
      var n := |chosen| - 1;
      ChargeIsBounded(ps, chosen[..n], key);
      ChargeOfOneMore(ps, chosen[..n], chosen[n], key);
      assert chosen[..n] + [chosen[n]] == chosen;
    }
  }

  lemma {:induction false} NothingToCharge(ps: seq<Pair>, key: Pair -> Id)
    ensures Charge(ps, [], key) == 0
  {
    if ps != [] {
      NothingToCharge(ps[..|ps| - 1], key);
    }
  }

  lemma {:induction false} ScoreOfMember(ps: seq<Pair>, key: Pair -> Id, g: Pair)
    requires g in ps
    ensures ScoreOf(ps, key, key(g)) >= g.candidate.score
  {
    var n := |ps| - 1;
    if ps[n] != g {
      assert g in ps[..n];
      ScoreOfMember(ps[..n], key, g);
    }
  }

  function InvoiceKey(): Pair -> Id {
    (p: Pair) => p.invoice
  }

  function ExpenseKey(): Pair -> Id {
    (p: Pair) => p.candidate.expense
  }

  /** Each pair of an assignment is paid for by what was chosen for its invoice or for its expense. */
  lemma {:induction false} EveryPairIsPaid(ps: seq<Pair>, chosen: seq<Pair>)
    requires forall p :: p in ps ==> Outscored(chosen, p)
    ensures TotalScore(ps) <= Charge(ps, chosen, InvoiceKey()) + Charge(ps, chosen, ExpenseKey())
  {
    if ps != [] {
      var n := |ps| - 1;
      EveryPairIsPaid(ps[..n], chosen);
      var p := ps[n];
      assert Outscored(chosen, p);
      var g :| g in chosen && (g.invoice == p.invoice || g.candidate.expense == p.candidate.expense)
        && g.candidate.score >= p.candidate.score;
      ScoreOfMember(chosen, InvoiceKey(), g);
      ScoreOfMember(chosen, ExpenseKey(), g);
    }
  }

  /** No other one-to-one choice of candidate pairs scores more than twice the proposal. */
  lemma ProposalIsHalfOptimal(cs: seq<Candidates>, other: seq<Pair>)
    requires OneToOne(other)
    requires forall p :: p in other ==> p in AllPairs(cs)
    ensures TotalScore(other) <= 2 * TotalScore(Proposal(cs))
  {
    ProposalOutscores(cs);
    EveryPairIsPaid(other, Proposal(cs));
    ChargeIsBounded(other, Proposal(cs), InvoiceKey());
    ChargeIsBounded(other, Proposal(cs), ExpenseKey());
  }

  /** A one-to-one choice of candidate pairs worth twice the proposal. */
  ghost predicate TwiceTheProposal(cs: seq<Candidates>, other: seq<Pair>) {
    && OneToOne(other) && (forall p :: p in other ==> p in AllPairs(cs))
    && TotalScore(other) == 2 * TotalScore(Proposal(cs)) && TotalScore(other) > 0
  }

  /** Pairs of equal score, the first of which shuts the other two out. */
  lemma FirstShutsOut(crossed: Pair, a: Pair, b: Pair)
    requires a.invoice == crossed.invoice && b.candidate.expense == crossed.candidate.expense
    ensures Greedy([crossed, a, b]) == [crossed]
  {
    var all := [crossed, a, b];
    assert all[..2] == [crossed, a] && [crossed, a][..1] == [crossed] && [crossed][..0] == [];
    assert crossed in [crossed];
    assert HasInvoice([crossed], a.invoice) && HasExpense([crossed], b.candidate.expense);
    assert Greedy([crossed]) == [crossed];
    assert Greedy([crossed, a]) == [crossed];
  }

  lemma AllPairsNext(cs: seq<Candidates>, c: Candidates)
    requires |c.scored| <= LIMIT && Descending(c.scored, MatchScore())
    ensures AllPairs(cs + [c]) == AllPairs(cs) + PairsOf(c.invoice, c.scored)
  {
    assert (cs + [c])[..|cs|] == cs;
    SortOfSorted(c.scored, MatchScore());
  }

  lemma OneInOrder<T>(x: T, score: T -> int)
    ensures Descending([x], score)
  {
  }

  lemma TwoInOrder<T>(x: T, y: T, score: T -> int)
    requires score(x) >= score(y)
    ensures Descending([x, y], score)
  {
  }

  lemma ThreeInOrder<T>(x: T, y: T, z: T, score: T -> int)
    requires score(x) >= score(y) >= score(z)
    ensures Descending([x, y, z], score)
  {
  }

  lemma PairsOfTwo(i: Id, j: Id, x: Match, y: Match, z: Match)
    requires x.score >= y.score
    ensures AllPairs([Candidates(i, [x, y]), Candidates(j, [z])]) == [Pair(i, x), Pair(i, y), Pair(j, z)]
  {
    var one, two := Candidates(i, [x, y]), Candidates(j, [z]);
    TwoInOrder(x, y, MatchScore());
    OneInOrder(z, MatchScore());
    AllPairsNext([], one);
    AllPairsNext([one], two);
    PairsOfThree(one, two);
    assert [] + [one] == [one] && [one] + [two] == [one, two];
  }

  lemma PairsOfThree(one: Candidates, two: Candidates)
    requires |one.scored| == 2 && |two.scored| == 1
    ensures PairsOf(one.invoice, one.scored) + PairsOf(two.invoice, two.scored)
            == [Pair(one.invoice, one.scored[0]), Pair(one.invoice, one.scored[1]), Pair(two.invoice, two.scored[0])]
  {
  }

  lemma TwoForOne(crossed: Pair, a: Pair, b: Pair)
    requires crossed.candidate.score == a.candidate.score == b.candidate.score > 0
    ensures TotalScore([a, b]) == 2 * TotalScore([crossed]) > 0
  {
    assert [crossed][..0] == [] && [a, b][..1] == [a] && [a][..0] == [];
  }

  lemma TwiceWhen(cs: seq<Candidates>, crossed: Pair, a: Pair, b: Pair)
    requires AllPairs(cs) == [crossed, a, b] && Proposal(cs) == [crossed]
    requires a.invoice != b.invoice && a.candidate.expense != b.candidate.expense
    requires TotalScore([a, b]) == 2 * TotalScore([crossed]) > 0
    ensures TwiceTheProposal(cs, [a, b])
  {
  }

  /**
   * The bound is reached: two invoices, the first with two expenses and the second with one of them, all of the same
   * score, and the shared expense goes to the first.
   */
  lemma HalfIsTight()
    ensures exists cs, other :: TwiceTheProposal(cs, other)
  {
    var one, two := Match(1, 45, Possible), Match(2, 45, Possible);
    var cs := [Candidates(1, [two, one]), Candidates(2, [two])];
    var crossed, a, b := Pair(1, two), Pair(1, one), Pair(2, two);
    PairsOfTwo(1, 2, two, one, two);
    OnlyTheCrossed(crossed, a, b);
    TwoForOne(crossed, a, b);
    TwiceWhen(cs, crossed, a, b);
  }

  lemma OnlyTheCrossed(crossed: Pair, a: Pair, b: Pair)
    requires crossed.candidate.score == a.candidate.score == b.candidate.score
    requires a.invoice == crossed.invoice && b.candidate.expense == crossed.candidate.expense
    ensures Greedy(SortByScore([crossed, a, b], PairScore())) == [crossed]
  {
    ThreeInOrder(crossed, a, b, PairScore());
    SortOfSorted([crossed, a, b], PairScore());
    FirstShutsOut(crossed, a, b);
  }

  // ---------------------------------------------------------------- the suggestions shown

  datatype Suggestion = Suggestion(invoice: Id, best: Match, ambiguous: bool, alternatives: seq<Match>)

  function Rivals(all: seq<Match>, best: Match): seq<Match> {
    if all == [] then []
    else
      var last := all[|all| - 1];
      Rivals(all[..|all| - 1], best) + if last.expense != best.expense then [last] else []
  }

  function FirstThree(ms: seq<Match>): seq<Match> {
    if |ms| <= 3 then ms else ms[..3]
  }

  function Suggest(p: Pair, all: seq<Match>): Suggestion {
    var rivals := Rivals(all, p.candidate);
    Suggestion(p.invoice, p.candidate,
               rivals != [] && rivals[0].level == p.candidate.level && p.candidate.score - rivals[0].score < 10,
               FirstThree(rivals))
  }

  function SuggestionScore(): Suggestion -> int {
    (s: Suggestion) => s.best.score
  }

  /** The best five of each invoice that has any (the last entry wins if an invoice is listed twice). */
  function PerInvoice(cs: seq<Candidates>): map<Id, seq<Match>> {
    if cs == [] then map[]
    else
      var before := PerInvoice(cs[..|cs| - 1]);
      var matches := MatchExpenses(cs[|cs| - 1]);
      if matches == [] then before else before[cs[|cs| - 1].invoice := matches]
  }

  function SuggestionsFor(chosen: seq<Pair>, per: map<Id, seq<Match>>): (r: seq<Suggestion>)
    ensures |r| == |chosen|
    ensures forall i :: 0 <= i < |r| ==> r[i].invoice == chosen[i].invoice && r[i].best == chosen[i].candidate
  {
    seq(|chosen|, i requires 0 <= i < |chosen| =>
      Suggest(chosen[i], if chosen[i].invoice in per then per[chosen[i].invoice] else []))
  }

  function SuggestAll(cs: seq<Candidates>): seq<Suggestion> {
    SortByScore(SuggestionsFor(Proposal(cs), PerInvoice(cs)), SuggestionScore())
  }

  /** `suggestAll`: collects the pairs, assigns the best first and shows what was assigned. */
  method ComputeSuggestions(cs: seq<Candidates>) returns (out: seq<Suggestion>)
    ensures out == SuggestAll(cs)
  {
    var perInvoice, pairs := CollectPairs(cs);
    var order, given := AssignPairs(SortByScore(pairs, PairScore()));
    out := ShowAssigned(order, given, perInvoice, Proposal(cs));
    out := SortByScore(out, SuggestionScore());
  }

  /** The third loop: each assigned pair with its rivals. */
  method ShowAssigned(order: seq<Id>, given: map<Id, Match>, perInvoice: map<Id, seq<Match>>, ghost chosen: seq<Pair>)
    returns (out: seq<Suggestion>)
    requires |order| == |chosen|
    requires forall k :: 0 <= k < |order| ==> order[k] in given && chosen[k] == Pair(order[k], given[order[k]])
    ensures out == SuggestionsFor(chosen, perInvoice)
  {
    out := [];
    for i := 0 to |order|
      invariant out == SuggestionsFor(chosen[..i], perInvoice)
    {
      var k := order[i];
      var all := if k in perInvoice then perInvoice[k] else [];
      assert chosen[..i + 1] == chosen[..i] + [Pair(k, given[k])];
      OneMoreSuggestion(chosen[..i], Pair(k, given[k]), perInvoice);
      out := out + [Suggest(Pair(k, given[k]), all)];
    }
    assert chosen[..|order|] == chosen;
  }

  lemma OneMoreSuggestion(chosen: seq<Pair>, p: Pair, per: map<Id, seq<Match>>)
    ensures SuggestionsFor(chosen + [p], per) ==
      SuggestionsFor(chosen, per) + [Suggest(p, if p.invoice in per then per[p.invoice] else [])]
  {
  }

  /** The first loop: the matches of each invoice that has any, and all of them as pairs. */
  method CollectPairs(cs: seq<Candidates>) returns (perInvoice: map<Id, seq<Match>>, pairs: seq<Pair>)
    ensures perInvoice == PerInvoice(cs) && pairs == AllPairs(cs)
  {
    perInvoice, pairs := map[], [];
    for i := 0 to |cs|
      invariant perInvoice == PerInvoice(cs[..i])
      invariant pairs == AllPairs(cs[..i])
    {
      assert cs[..i + 1][..i] == cs[..i];
      var matches := MatchExpenses(cs[i]);
      if matches == [] {
        continue;
      }
      perInvoice := perInvoice[cs[i].invoice := matches];
      pairs := pairs + PairsOf(cs[i].invoice, matches);
    }
    assert cs[..|cs|] == cs;
  }

  /** The insertion-ordered map of assigned invoices stands for a list of chosen pairs. */
  ghost predicate StandsFor(order: seq<Id>, given: map<Id, Match>, taken: set<Id>, chosen: seq<Pair>) {
    && |order| == |chosen|
    && (forall k :: 0 <= k < |order| ==> order[k] in given && chosen[k] == Pair(order[k], given[order[k]]))
    && (forall k :: k in given <==> HasInvoice(chosen, k))
    && (forall e :: e in taken <==> HasExpense(chosen, e))
  }

  lemma StandsForOneMore(order: seq<Id>, given: map<Id, Match>, taken: set<Id>, chosen: seq<Pair>, p: Pair)
    requires StandsFor(order, given, taken, chosen) && !HasInvoice(chosen, p.invoice)
    ensures StandsFor(order + [p.invoice], given[p.invoice := p.candidate], taken + {p.candidate.expense}, chosen + [p])
  {
    OneMoreChosen(chosen, p);
    forall k | 0 <= k < |order|
      ensures order[k] != p.invoice
    {
      assert chosen[k] in chosen;
    }
  }

  /** The second loop: each pair whose invoice and expense are both free. */
  method AssignPairs(sorted: seq<Pair>) returns (order: seq<Id>, given: map<Id, Match>)
    ensures |order| == |Greedy(sorted)|
    ensures forall k :: 0 <= k < |order| ==> order[k] in given && Greedy(sorted)[k] == Pair(order[k], given[order[k]])
  {
    var takenExpense: set<Id> := {};
    order, given := [], map[];
    for i := 0 to |sorted|
      invariant StandsFor(order, given, takenExpense, Greedy(sorted[..i]))
    {
      assert sorted[..i + 1][..i] == sorted[..i];
      var p := sorted[i];
      if p.invoice in given || p.candidate.expense in takenExpense {
        continue;
      }
      StandsForOneMore(order, given, takenExpense, Greedy(sorted[..i]), p);
      given := given[p.invoice := p.candidate];
      order := order + [p.invoice];
      takenExpense := takenExpense + {p.candidate.expense};
    }
    assert sorted[..|sorted|] == sorted;
  }

  lemma OneMoreChosen(chosen: seq<Pair>, p: Pair)
    ensures forall k :: HasInvoice(chosen + [p], k) <==> HasInvoice(chosen, k) || k == p.invoice
    ensures forall e :: HasExpense(chosen + [p], e) <==> HasExpense(chosen, e) || e == p.candidate.expense
  {
    assert p in chosen + [p];
    forall k | HasInvoice(chosen, k)
      ensures HasInvoice(chosen + [p], k)
    {
      var q :| q in chosen && q.invoice == k;
      assert q in chosen + [p];
    }
    forall e | HasExpense(chosen, e)
      ensures HasExpense(chosen + [p], e)
    {
      var q :| q in chosen && q.candidate.expense == e;
      assert q in chosen + [p];
    }
  }

  lemma SortMovesNothing<T>(xs: seq<T>, score: T -> int)
    ensures |SortByScore(xs, score)| == |xs|
    ensures forall x :: x in SortByScore(xs, score) <==> x in xs
  {
    var sorted := SortByScore(xs, score);
    SortedByScore(xs, score);
    assert |multiset(xs)| == |multiset(sorted)|;
    forall x
      ensures x in sorted <==> x in xs
    {
      assert x in multiset(sorted) <==> x in multiset(xs);
    }
  }

  /** The suggestions shown are the proposal, each pair once, best scores first. */
  lemma SuggestionsShowTheProposal(cs: seq<Candidates>)
    ensures Descending(SuggestAll(cs), SuggestionScore())
    ensures |SuggestAll(cs)| == |Proposal(cs)|
    ensures forall p :: p in Proposal(cs) <==> exists s :: s in SuggestAll(cs) && p == Pair(s.invoice, s.best)
  {
    var shown := SuggestionsFor(Proposal(cs), PerInvoice(cs));
    SortedByScore(shown, SuggestionScore());
    SortMovesNothing(shown, SuggestionScore());
    forall p | p in Proposal(cs)
      ensures exists s :: s in SuggestAll(cs) && p == Pair(s.invoice, s.best)
    {
      var i :| 0 <= i < |Proposal(cs)| && Proposal(cs)[i] == p;
      assert shown[i] in shown && p == Pair(shown[i].invoice, shown[i].best);
    }
  }

  /** A rival of the same level within ten points of the one proposed. */
  ghost predicate CloseRival(all: seq<Match>, best: Match, r: Match) {
    r in all && r.expense != best.expense && r.level == best.level && best.score - r.score < 10
  }

  lemma {:induction false} RivalsAreTheOthers(all: seq<Match>, best: Match)
    ensures forall r :: r in Rivals(all, best) <==> r in all && r.expense != best.expense
  {
    if all != [] {
      RivalsAreTheOthers(all[..|all| - 1], best);
      assert all == all[..|all| - 1] + [all[|all| - 1]];
    }
  }

  ghost predicate HasCloseRival(all: seq<Match>, best: Match) {
    exists r :: CloseRival(all, best, r)
  }

  /** A flagged suggestion really has a close rival. */
  lemma FlaggedHasACloseRival(p: Pair, all: seq<Match>)
    requires Suggest(p, all).ambiguous
    ensures HasCloseRival(all, p.candidate)
  {
    RivalsAreTheOthers(all, p.candidate);
    var top := Rivals(all, p.candidate)[0];
    assert top in Rivals(all, p.candidate);
    assert CloseRival(all, p.candidate, top);
  }

  lemma {:induction false} RivalsKeepOrder(all: seq<Match>, best: Match)
    requires Descending(all, MatchScore())
    ensures Descending(Rivals(all, best), MatchScore())
  {
    if all != [] {
      var n := |all| - 1;
      forall i, j | 0 <= i < j < n
        ensures MatchScore()(all[..n][i]) >= MatchScore()(all[..n][j])
      {
        assert MatchScore()(all[i]) >= MatchScore()(all[j]);
      }
      RivalsKeepOrder(all[..n], best);
      RivalsAreTheOthers(all[..n], best);
      var before := Rivals(all[..n], best);
      forall i | 0 <= i < |before|
        ensures MatchScore()(before[i]) >= MatchScore()(all[n])
      {
        assert before[i] in before;
        var k :| 0 <= k < n && all[k] == before[i];
        assert MatchScore()(all[k]) >= MatchScore()(all[n]);
      }
    }
  }

  /**
   * Only the first rival is looked at. With the expenses of an invoice best first, the flag tells exactly whether
   * there is a close rival when the first rival is of the level proposed or there is none; when it is of the other
   * level the flag is down, whatever comes behind.
   */
  lemma FlagTells(p: Pair, all: seq<Match>)
    requires Descending(all, MatchScore())
    ensures var rivals := Rivals(all, p.candidate);
      if rivals == [] || rivals[0].level == p.candidate.level
      then Suggest(p, all).ambiguous <==> HasCloseRival(all, p.candidate)
      else !Suggest(p, all).ambiguous
  {
    var rivals := Rivals(all, p.candidate);
    RivalsAreTheOthers(all, p.candidate);
    RivalsKeepOrder(all, p.candidate);
    if Suggest(p, all).ambiguous {
      FlaggedHasACloseRival(p, all);
    } else if HasCloseRival(all, p.candidate) {
      var r :| CloseRival(all, p.candidate, r);
      var k :| 0 <= k < |rivals| && rivals[k] == r;
      assert k > 0 ==> MatchScore()(rivals[0]) >= MatchScore()(rivals[k]);
    }
  }

  lemma {:induction false} PerInvoiceIsSorted(cs: seq<Candidates>)
    ensures forall k :: k in PerInvoice(cs) ==> Descending(PerInvoice(cs)[k], MatchScore())
  {
    if cs != [] {
      PerInvoiceIsSorted(cs[..|cs| - 1]);
      SortedByScore(cs[|cs| - 1].scored, MatchScore());
    }
  }

  lemma {:induction false} ProposedIsListed(cs: seq<Candidates>)
    ensures forall p :: p in AllPairs(cs) ==> p.invoice in PerInvoice(cs)
  {
    if cs != [] {
      ProposedIsListed(cs[..|cs| - 1]);
    }
  }

  ghost predicate EachInvoiceOnce(cs: seq<Candidates>) {
    forall i, j :: 0 <= i < j < |cs| ==> cs[i].invoice != cs[j].invoice
  }

  lemma {:induction false} OthersAreNotListed(cs: seq<Candidates>, i: Id)
    requires forall k :: 0 <= k < |cs| ==> cs[k].invoice != i
    ensures i !in PerInvoice(cs)
  {
    if cs != [] {
      OthersAreNotListed(cs[..|cs| - 1], i);
    }
  }

  /** An invoice is listed exactly if an expense was kept for it, and with all those kept. */
  lemma {:induction false} ListedAreTheKept(cs: seq<Candidates>, k: nat)
    requires EachInvoiceOnce(cs) && k < |cs|
    ensures var i, kept, listed := cs[k].invoice, MatchExpenses(cs[k]), PerInvoice(cs);
      (i in listed <==> kept != []) && (i in listed ==> listed[i] == kept)
  {
    var n := |cs| - 1;
    if k < n {
      ListedAreTheKept(cs[..n], k);
      assert cs[..n][k] == cs[k];
    } else {
      OthersAreNotListed(cs[..n], cs[n].invoice);
    }
  }

  /** The alternatives come from the expenses that are not the one proposed, as many times as they are listed. */
  lemma {:induction false} RivalsAreAllTheOthers(all: seq<Match>, best: Match, r: Match)
    ensures multiset(Rivals(all, best))[r] == if r.expense != best.expense then multiset(all)[r] else 0
  {
    if all != [] {
      RivalsAreAllTheOthers(all[..|all| - 1], best, r);
      assert all == all[..|all| - 1] + [all[|all| - 1]];
    }
  }

  lemma ShownIsSuggested(cs: seq<Candidates>, s: Suggestion)
    requires s in SuggestAll(cs)
    ensures s.invoice in PerInvoice(cs)
    ensures s == Suggest(Pair(s.invoice, s.best), PerInvoice(cs)[s.invoice])
  {
    var shown := SuggestionsFor(Proposal(cs), PerInvoice(cs));
    SortMovesNothing(shown, SuggestionScore());
    var i :| 0 <= i < |shown| && shown[i] == s;
    ProposalOutscores(cs);
    ProposedIsListed(cs);
    assert Proposal(cs)[i] in Proposal(cs);
  }

  /** The same of every suggestion shown, against the expenses kept for its invoice. */
  lemma FlagsShownTell(cs: seq<Candidates>, s: Suggestion)
    requires s in SuggestAll(cs)
    ensures s.invoice in PerInvoice(cs)
    ensures var all := PerInvoice(cs)[s.invoice];
      var rivals := Rivals(all, s.best);
      && s.alternatives <= rivals && |s.alternatives| == (if |rivals| <= 3 then |rivals| else 3)
      && if rivals == [] || rivals[0].level == s.best.level
         then s.ambiguous <==> HasCloseRival(all, s.best)
         else !s.ambiguous
  {
    ShownIsSuggested(cs, s);
    PerInvoiceIsSorted(cs);
    FlagTells(Pair(s.invoice, s.best), PerInvoice(cs)[s.invoice]);
  }

  /** The only suggestion shown has a close rival and is not flagged. */
  ghost predicate Missed(cs: seq<Candidates>) {
    && |SuggestAll(cs)| == 1 && !SuggestAll(cs)[0].ambiguous && SuggestAll(cs)[0].invoice in PerInvoice(cs)
    && HasCloseRival(PerInvoice(cs)[SuggestAll(cs)[0].invoice], SuggestAll(cs)[0].best)
  }

  lemma RivalsOfTheFirst(best: Match, other: Match, close: Match)
    requires other.expense != best.expense && close.expense != best.expense
    ensures Rivals([best, other, close], best) == [other, close]
  {
    var all := [best, other, close];
    assert all[..2] == [best, other] && [best, other][..1] == [best] && [best][..0] == [];
    assert Rivals([best], best) == [];
    assert Rivals([best, other], best) == [other];
  }

  /** The scores that three expenses get against an invoice of 50.00. */
  lemma ThreeScores()
    ensures ScoreExpense(1, SimilarName, 5000, 5000, 0, 0) == Some(Match(1, 85, Strong))
    ensures ScoreExpense(2, SameRnc, 5000, 5000, 0, 20) == Some(Match(2, 84, Possible))
    ensures ScoreExpense(3, SameRnc, 5090, 5000, 0, 10) == Some(Match(3, 82, Strong))
  {
  }

  lemma MissedIfAlone(cs: seq<Candidates>, p: Pair, all: seq<Match>)
    requires SuggestAll(cs) == [Suggest(p, all)] && PerInvoice(cs) == map[p.invoice := all]
    requires !Suggest(p, all).ambiguous && HasCloseRival(all, p.candidate)
    ensures Missed(cs)
  {
  }

  /** One invoice and those three expenses: a better rival of the other level hides a close one. */
  lemma FlagCanMissACloseRival()
    ensures var best := ScoreExpense(1, SimilarName, 5000, 5000, 0, 0).value;
      var other := ScoreExpense(2, SameRnc, 5000, 5000, 0, 20).value;
      var close := ScoreExpense(3, SameRnc, 5090, 5000, 0, 10).value;
      Missed([Candidates(7, [best, other, close])])
  {
    ThreeScores();
    var best, other, close := Match(1, 85, Strong), Match(2, 84, Possible), Match(3, 82, Strong);
    var all := [best, other, close];
    var cs := [Candidates(7, all)];
    OnlyTheBest(cs, 7, all);
    RivalsOfTheFirst(best, other, close);
    assert CloseRival(all, best, close);
    MissedIfAlone(cs, Pair(7, best), all);
  }

  /** A single invoice is proposed the first of its expenses. */
  lemma OnlyTheBest(cs: seq<Candidates>, invoice: Id, all: seq<Match>)
    requires cs == [Candidates(invoice, all)] && 0 < |all| <= LIMIT && Descending(all, MatchScore())
    ensures PerInvoice(cs) == map[invoice := all]
    ensures SuggestAll(cs) == [Suggest(Pair(invoice, all[0]), all)]
  {
    OneInvoice(cs, invoice, all);
    PairsInOrder(invoice, all);
    FirstOfOneInvoice(PairsOf(invoice, all));
    ShownAlone(Pair(invoice, all[0]), PerInvoice(cs));
  }

  lemma FirstOfOneInvoice(pairs: seq<Pair>)
    requires pairs != [] && Descending(pairs, PairScore())
    requires forall i :: 0 <= i < |pairs| ==> pairs[i].invoice == pairs[0].invoice
    ensures Greedy(SortByScore(pairs, PairScore())) == [pairs[0]]
  {
    SortOfSorted(pairs, PairScore());
    GreedyOfOneInvoice(pairs, |pairs|);
    assert pairs[..|pairs|] == pairs;
  }

  lemma ShownAlone(p: Pair, per: map<Id, seq<Match>>)
    requires p.invoice in per
    ensures SortByScore(SuggestionsFor([p], per), SuggestionScore()) == [Suggest(p, per[p.invoice])]
  {
    var shown := SuggestionsFor([p], per);
    assert shown == [Suggest(p, per[p.invoice])];
    SortOfSorted(shown, SuggestionScore());
  }

  lemma PairsInOrder(invoice: Id, all: seq<Match>)
    requires Descending(all, MatchScore())
    ensures Descending(PairsOf(invoice, all), PairScore())
  {
    forall i, j | 0 <= i < j < |all|
      ensures all[i].score >= all[j].score
    {
      assert MatchScore()(all[i]) >= MatchScore()(all[j]);
    }
  }

  lemma OneInvoice(cs: seq<Candidates>, invoice: Id, all: seq<Match>)
    requires cs == [Candidates(invoice, all)] && 0 < |all| <= LIMIT && Descending(all, MatchScore())
    ensures PerInvoice(cs) == map[invoice := all] && AllPairs(cs) == PairsOf(invoice, all)
  {
    SortOfSorted(all, MatchScore());
    assert cs[..0] == [];
    assert MatchExpenses(cs[0]) == all;
  }

  lemma {:induction false} GreedyOfOneInvoice(pairs: seq<Pair>, n: nat)
    requires 0 < n <= |pairs| && forall i :: 0 <= i < |pairs| ==> pairs[i].invoice == pairs[0].invoice
    ensures Greedy(pairs[..n]) == [pairs[0]]
  {
    assert pairs[..n][..n - 1] == pairs[..n - 1];
    if n > 1 {
      GreedyOfOneInvoice(pairs, n - 1);
      assert pairs[0] in [pairs[0]];
    } else {
      assert pairs[..0] == [];
    }
  }
}
