/**
 * What one message, or one wait that ends, does to a conversation, field by field: who opens a session and who closes
 * it, when a photo is read, where a destination comes from, what is confirmed. Then what that means over whole runs.
 */
module WhatsappEffects {
  import opened Wrappers
  import opened WhatsappFlow

  /** The sender has an invoice pending that has not expired. */
  predicate Live(s: State, p: Phone) {
    p in s.sessions && s.sessions[p] < |s.objects| && s.clock <= s.objects[s.sessions[p]].expiresAt
  }

  predicate Busy(s: State, p: Phone) {
    Live(s, p) || p in s.processing
  }

  predicate HasPhotoKept(s: State, p: Phone) {
    p in s.failedMedia && s.clock <= s.failedMedia[p]
  }

  predicate Owns(s: State, p: Phone, user: User) {
    Live(s, p) && s.objects[s.sessions[p]].user == user
  }

  /** A button, not that to cancel, pressed by whoever sent the photo on the invoice pending. */
  predicate Presses(s: State, ev: Event) {
    ev.Button? && !ev.choice.CancelButton? && Owns(s, ev.from, ev.user)
  }

  predicate Cancels(ev: Event, p: Phone) {
    ev == CancelText(p) || (ev.Button? && ev.from == p && ev.choice == CancelButton)
  }

  predicate Saves(s: State, ev: Event) {
    Presses(s, ev) && ev.choice == Save && s.objects[s.sessions[ev.from]].destination.Some?
  }

  predicate Chooses(s: State, ev: Event) {
    Presses(s, ev) && ev.choice.Choose?
  }

  predicate StartsToRead(s: State, ev: Event) {
    (ev.Photo? || (ev.Retry? && HasPhotoKept(s, ev.from))) && !Busy(s, ev.from)
  }

  /** A photo was read that is a whole invoice, not yet registered. */
  predicate ReadsAnInvoice(s: State, ev: Event) {
    && ev.ReadDone? && ev.task < |s.tasks| && s.tasks[ev.task].ReadingPhoto?
    && ev.result.Read? && ev.result.scan.complete && !ev.result.scan.duplicate
  }

  predicate FindsADestination(s: State, ev: Event) {
    && ev.LookupDone? && ev.task < |s.tasks| && s.tasks[ev.task].LookingUp?
    && (ev.found || !s.tasks[ev.task].choice.Project?)
  }

  /** What is typed is searched for, or another destination is asked for. */
  predicate Reconsiders(s: State, ev: Event) {
    || (ev.Search? && 2 <= ev.length <= 60 && Live(s, ev.from))
    || (Presses(s, ev) && ev.choice == Back)
  }

  predicate RegistersAnInvoice(s: State, ev: Event) {
    ev.SaveDone? && ev.created && ev.task < |s.tasks| && s.tasks[ev.task].Saving?
  }

  /** What the steps rely on; it is part of what every run keeps. */
  ghost predicate Indexed(s: State) {
    && (forall p :: p in s.sessions ==> s.sessions[p] < |s.objects|)
    && (forall k :: 0 <= k < |s.tasks| && s.tasks[k].LookingUp? ==> s.tasks[k].session < |s.objects|)
    && (forall k :: 0 <= k < |s.tasks| && s.tasks[k].ReadingPhoto? ==> s.tasks[k].from !in s.sessions)
  }

  // ---------------------------------------------------------------- sessions

  lemma SessionsOfAMessage(s: State, ev: Event, p: Phone)
    requires Indexed(s) && IsMessage(ev)
    ensures p in Step(s, ev).sessions <==> Live(s, p) && !Cancels(ev, p) && !(Saves(s, ev) && ev.from == p)
    ensures p in Step(s, ev).sessions ==> Step(s, ev).sessions[p] == s.sessions[p]
  {
  }

  /**
   * A pending invoice is dropped exactly when its sender cancels it, when its owner saves it with a destination chosen,
   * or when anybody writes once its twenty minutes have passed. Otherwise it stays the one it was.
   */
  lemma SessionClosesExactlyWhen(s: State, ev: Event, p: Phone)
    requires Indexed(s) && p in s.sessions
    ensures p !in Step(s, ev).sessions <==>
      || Cancels(ev, p)
      || (Saves(s, ev) && ev.from == p)
      || (IsMessage(ev) && s.objects[s.sessions[p]].expiresAt < s.clock)
    ensures p in Step(s, ev).sessions ==> Step(s, ev).sessions[p] == s.sessions[p]
  {
    if IsMessage(ev) {
      SessionsOfAMessage(s, ev, p);
    } else if ev.ReadDone? {
      assert ev.task < |s.tasks| && s.tasks[ev.task].ReadingPhoto? ==> s.tasks[ev.task].from != p;
    }
  }

  /**
   * A session is opened exactly when a photo of its sender was read as a whole invoice not registered before: a new
   * one, for who sent it, without a destination, for twenty minutes.
   */
  lemma SessionOpensExactlyWhen(s: State, ev: Event, p: Phone)
    requires Indexed(s) && p !in s.sessions
    ensures p in Step(s, ev).sessions <==> ReadsAnInvoice(s, ev) && s.tasks[ev.task].from == p
    ensures p in Step(s, ev).sessions ==> Step(s, ev).sessions[p] == |s.objects|
  {
    if IsMessage(ev) {
      SessionsOfAMessage(s, ev, p);
    }
  }

  /** The sessions there have been: one more exactly for each invoice read. */
  lemma SessionsThereHaveBeen(s: State, ev: Event)
    requires Indexed(s)
    ensures |Step(s, ev).objects| == |s.objects| + (if ReadsAnInvoice(s, ev) then 1 else 0)
    ensures ReadsAnInvoice(s, ev) ==>
      Step(s, ev).objects[|s.objects|] ==
        Session(s.tasks[ev.task].from, s.tasks[ev.task].user, ev.result.scan, None, s.clock + 1_200_000)
  {
  }

  /** A session keeps its sender and what was read. */
  lemma SessionKeepsItsPhoto(s: State, ev: Event, i: nat)
    requires Indexed(s) && i < |s.objects|
    ensures i < |Step(s, ev).objects|
    ensures var o, o' := s.objects[i], Step(s, ev).objects[i];
      o'.from == o.from && o'.user == o.user && o'.scan == o.scan
  {
  }

  /** The destination of a session is the last one found for it, or none since its owner reconsidered. */
  lemma DestinationAfter(s: State, ev: Event, i: nat)
    requires Indexed(s) && i < |s.objects|
    ensures i < |Step(s, ev).objects|
    ensures Step(s, ev).objects[i].destination ==
      if FindsADestination(s, ev) && s.tasks[ev.task].session == i then Some(s.tasks[ev.task].choice)
      else if Reconsiders(s, ev) && s.sessions[ev.from] == i then None
      else s.objects[i].destination
  {
    if ev.Button? {
      ButtonOnSession(s, ev, i);
    }
  }

  /** Every button its owner presses gives a session twenty minutes more, and nothing else does. */
  lemma ExpiryAfter(s: State, ev: Event, i: nat)
    requires Indexed(s) && i < |s.objects|
    ensures i < |Step(s, ev).objects|
    ensures Step(s, ev).objects[i].expiresAt ==
      if Presses(s, ev) && s.sessions[ev.from] == i then s.clock + 1_200_000 else s.objects[i].expiresAt
  {
    if ev.Button? {
      ButtonOnSession(s, ev, i);
    }
  }

  lemma ButtonOnSession(s: State, ev: Event, i: nat)
    requires Indexed(s) && i < |s.objects| && ev.Button?
    ensures |Step(s, ev).objects| == |s.objects|
    ensures Step(s, ev).objects[i] ==
      if !Presses(s, ev) || s.sessions[ev.from] != i then s.objects[i]
      else
        var d := if ev.choice == Back then None else s.objects[i].destination;
        s.objects[i].(expiresAt := s.clock + 1_200_000, destination := d)
  {
  }

  // ---------------------------------------------------------------- photos and waits

  /** A photo is read from when it, or the word to try again, comes in at a free moment until the replies are sent. */
  lemma ReadingExactlyWhen(s: State, ev: Event, p: Phone)
    requires Indexed(s)
    ensures p in Step(s, ev).processing <==>
      || (StartsToRead(s, ev) && ev.from == p)
      || (p in s.processing && !(ev.Released? && ev.task < |s.tasks| && s.tasks[ev.task] == Replying(p)))
  {
  }

  /**
   * A photo is kept six hours when the service stayed saturated, until another of its sender is read without a code.
   */
  lemma PhotoKept(s: State, ev: Event, p: Phone)
    requires Indexed(s)
    ensures var media, media' := s.failedMedia, Step(s, ev).failedMedia;
      var ends := ev.ReadDone? && ev.task < |s.tasks| && s.tasks[ev.task].ReadingPhoto? && s.tasks[ev.task].from == p;
      if ends && ev.result == Saturated then p in media' && media'[p] == s.clock + 6 * 3_600_000
      else if ends && ev.result.Read? && !ev.result.viaQr then p !in media'
      else if ev.Retry? && ev.from == p && !HasPhotoKept(s, p) then p !in media'
      else (p in media' <==> p in media) && (p in media' ==> media'[p] == media[p])
  {
  }

  /** What waits, waits on until it is answered. */
  lemma WaitsAfter(s: State, ev: Event, k: nat)
    requires Indexed(s) && k < |s.tasks|
    ensures k < |Step(s, ev).tasks|
    ensures Step(s, ev).tasks[k] ==
      if ev.ReadDone? && ev.task == k && s.tasks[k].ReadingPhoto? then Replying(s.tasks[k].from)
      else if || (ev.Released? && ev.task == k && s.tasks[k].Replying?)
              || (ev.LookupDone? && ev.task == k && s.tasks[k].LookingUp?)
              || (ev.SaveDone? && ev.task == k && s.tasks[k].Saving?) then Finished
      else s.tasks[k]
  {
    if IsMessage(ev) {
      WaitsOfAMessage(s, ev);
    }
  }

  /** A wait begins exactly for a photo to read, a destination to look up and an invoice to create. */
  lemma WaitsBegin(s: State, ev: Event)
    requires Indexed(s)
    ensures Step(s, ev).tasks[|s.tasks|..] ==
      if StartsToRead(s, ev) then [ReadingPhoto(ev.from, ev.user)]
      else if Chooses(s, ev) then [LookingUp(s.sessions[ev.from], ev.user, ev.choice.destination)]
      else if Saves(s, ev) then [Saving(|s.confirmations|)]
      else []
  {
    if IsMessage(ev) {
      WaitsOfAMessage(s, ev);
    }
  }

  lemma WaitsOfAMessage(s: State, ev: Event)
    requires Indexed(s) && IsMessage(ev)
    ensures Step(s, ev).tasks == s.tasks +
      if StartsToRead(s, ev) then [ReadingPhoto(ev.from, ev.user)]
      else if Chooses(s, ev) then [LookingUp(s.sessions[ev.from], ev.user, ev.choice.destination)]
      else if Saves(s, ev) then [Saving(|s.confirmations|)]
      else []
  {
  }

  // ---------------------------------------------------------------- records

  /** Only an owner who saves confirms, and confirms the destination that the session has then. */
  lemma ConfirmedAfter(s: State, ev: Event)
    requires Indexed(s)
    ensures Step(s, ev).confirmations ==
      if Saves(s, ev) then
        var i := s.sessions[ev.from];
        s.confirmations + [Confirmation(i, s.objects[i].user, s.objects[i].destination.value, |s.picks|)]
      else s.confirmations
  {
  }

  /** A pick is made when the destination chosen is found, and in the session it was chosen for. */
  lemma PickedAfter(s: State, ev: Event)
    requires Indexed(s)
    ensures Step(s, ev).picks ==
      if FindsADestination(s, ev) then
        var i := s.tasks[ev.task].session;
        s.picks + [Pick(i, s.objects[i].user, s.tasks[ev.task].choice)]
      else s.picks
  {
  }

  /** An invoice is registered when it could be created; time only passes by itself. */
  lemma RegisteredAfter(s: State, ev: Event)
    requires Indexed(s)
    ensures Step(s, ev).invoices ==
      s.invoices + (if RegistersAnInvoice(s, ev) then [s.tasks[ev.task].confirmation] else [])
    ensures Step(s, ev).clock == if ev.Tick? then s.clock + ev.ms else s.clock
  {
  }

  // ---------------------------------------------------------------- a cancelled session over runs

  /** Session `i` was closed without being confirmed. */
  ghost predicate Abandoned(s: State, i: nat) {
    && i < |s.objects|
    && (forall p :: p in s.sessions ==> s.sessions[p] != i)
    && (forall c :: 0 <= c < |s.confirmations| ==> s.confirmations[c].session != i)
  }

  lemma AbandonedForGood(s: State, ev: Event, i: nat)
    requires Inv(s) && Abandoned(s, i)
    ensures Abandoned(Step(s, ev), i)
  {
    var t := Step(s, ev);
    SessionKeepsItsPhoto(s, ev, i);
    ConfirmedAfter(s, ev);
    forall p | p in t.sessions
      ensures t.sessions[p] != i
    {
      if p in s.sessions {
        SessionClosesExactlyWhen(s, ev, p);
      } else {
        SessionOpensExactlyWhen(s, ev, p);
      }
    }
  }

  lemma {:induction false} AbandonedOverRuns(s: State, evs: seq<Event>, i: nat)
    requires Inv(s) && Abandoned(s, i)
    ensures Inv(Run(s, evs)) && Abandoned(Run(s, evs), i)
    decreases evs
  {
    if evs != [] {
      StepKeepsInv(s, evs[0]);
      AbandonedForGood(s, evs[0], i);
      AbandonedOverRuns(Step(s, evs[0]), evs[1..], i);
    }
  }

  /** While a session is in the map it has not been confirmed, so closing it without saving abandons it. */
  lemma ClosedUnsavedIsAbandoned(s: State, ev: Event, p: Phone)
    requires Inv(s) && p in s.sessions && p !in Step(s, ev).sessions && !(Saves(s, ev) && ev.from == p)
    ensures Abandoned(Step(s, ev), s.sessions[p])
  {
    var i, t := s.sessions[p], Step(s, ev);
    SessionKeepsItsPhoto(s, ev, i);
    ConfirmedAfter(s, ev);
    SessionClosesExactlyWhen(s, ev, p);
    assert IsMessage(ev);
    forall q | q in t.sessions
      ensures t.sessions[q] != i
    {
      SessionsOfAMessage(s, ev, q);
    }
    forall c | 0 <= c < |t.confirmations|
      ensures t.confirmations[c].session != i
    {
      if c < |s.confirmations| {
        assert ConfirmationOk(s, s.confirmations[c]);
      }
    }
  }

  lemma OthersStayPending(s: State, ev: Event, p: Phone, q: Phone)
    requires Inv(s) && Cancels(ev, p) && q != p && Live(s, q)
    ensures var t := Step(s, ev);
      Live(t, q) && t.sessions[q] == s.sessions[q] && t.objects[t.sessions[q]] == s.objects[s.sessions[q]]
  {
    SessionClosesExactlyWhen(s, ev, q);
    SessionKeepsItsPhoto(s, ev, s.sessions[q]);
    DestinationAfter(s, ev, s.sessions[q]);
    ExpiryAfter(s, ev, s.sessions[q]);
  }

  /**
   * In any run, what was pending when its sender cancels, or when its time passed, is out of the map at once, and
   * whatever comes later it is never confirmed and no invoice is ever registered from it. Nobody else's pending
   * invoice is closed by it, unless its time had passed.
   */
  lemma CancelledIsNeverRegistered(before: seq<Event>, ev: Event, later: seq<Event>, p: Phone)
    requires var s := Run(Empty(), before);
      p in s.sessions && (Cancels(ev, p) || (IsMessage(ev) && !Live(s, p)))
    ensures var s, t := Run(Empty(), before), Step(Run(Empty(), before), ev);
      && p !in t.sessions
      && (forall q :: q != p && Cancels(ev, p) && Live(s, q) ==>
            Live(t, q) && t.sessions[q] == s.sessions[q] && t.objects[t.sessions[q]] == s.objects[s.sessions[q]])
    ensures var i, u := Run(Empty(), before).sessions[p], Run(Step(Run(Empty(), before), ev), later);
      && (forall q :: q in u.sessions ==> u.sessions[q] != i)
      && (forall c :: c in u.confirmations ==> c.session != i)
      && (forall n :: n in u.invoices ==> n < |u.confirmations| && u.confirmations[n].session != i)
  {
    var s := Run(Empty(), before);
    var t := Step(s, ev);
    RunKeepsInv(Empty(), before);
    StepKeepsInv(s, ev);
    SessionClosesExactlyWhen(s, ev, p);
    ClosedUnsavedIsAbandoned(s, ev, p);
    AbandonedOverRuns(t, later, s.sessions[p]);
    forall q | q != p && Cancels(ev, p) && Live(s, q)
      ensures Live(t, q) && t.sessions[q] == s.sessions[q] && t.objects[t.sessions[q]] == s.objects[s.sessions[q]]
    {
      OthersStayPending(s, ev, p, q);
    }
  }

  // ---------------------------------------------------------------- from the photo to the invoice

  /** A photo that is read, with nothing going wrong. */
  function PhotoRead(s: State, p: Phone, user: User, scan: Scan, viaQr: bool): seq<Event> {
    [Photo(p, user), ReadDone(|s.tasks|, Read(scan, viaQr)), Released(|s.tasks|)]
  }

  /** A destination chosen and saved, with nothing going wrong. */
  function ChosenAndSaved(s: State, p: Phone, user: User, d: Destination): seq<Event> {
    [ Button(p, user, Choose(d)), LookupDone(|s.tasks|, true),
      Button(p, user, Save), SaveDone(|s.tasks| + 1, true) ]
  }

  lemma PhotoStepByStep(s: State, p: Phone, user: User, scan: Scan, viaQr: bool)
    requires Inv(s) && !Busy(s, p) && scan.complete && !scan.duplicate
    ensures var taken := Step(s, Photo(p, user));
      var t := Step(Step(taken, ReadDone(|s.tasks|, Read(scan, viaQr))), Released(|s.tasks|));
      && Owns(t, p, user) && t.objects[t.sessions[p]] == Session(p, user, scan, None, s.clock + 1_200_000)
      && p !in t.processing && t.invoices == s.invoices && t.confirmations == s.confirmations
  {
  }

  /** Whatever has happened, a whole and new invoice that is read is pending for who sent its photo. */
  lemma PhotoOpensASession(s: State, p: Phone, user: User, scan: Scan, viaQr: bool)
    requires Inv(s) && !Busy(s, p) && scan.complete && !scan.duplicate
    ensures var t := Run(s, PhotoRead(s, p, user, scan, viaQr));
      && Owns(t, p, user) && t.objects[t.sessions[p]] == Session(p, user, scan, None, s.clock + 1_200_000)
      && p !in t.processing && t.invoices == s.invoices && t.confirmations == s.confirmations
  {
    PhotoStepByStep(s, p, user, scan, viaQr);
    RunOfThree(s, Photo(p, user), ReadDone(|s.tasks|, Read(scan, viaQr)), Released(|s.tasks|));
  }

  lemma PickStepByStep(s: State, p: Phone, user: User, d: Destination)
    requires Inv(s) && Owns(s, p, user)
    ensures var t := Step(Step(s, Button(p, user, Choose(d))), LookupDone(|s.tasks|, true));
      && Owns(t, p, user) && t.sessions[p] == s.sessions[p] && |t.tasks| == |s.tasks| + 1
      && t.objects[t.sessions[p]] == s.objects[s.sessions[p]].(destination := Some(d), expiresAt := s.clock + 1_200_000)
      && t.confirmations == s.confirmations && t.invoices == s.invoices && |t.picks| == |s.picks| + 1
  {
  }

  lemma SavedStepByStep(s: State, p: Phone, user: User, d: Destination)
    requires Inv(s) && Owns(s, p, user)
    ensures var k, i := |s.tasks|, s.sessions[p];
      var picked := Step(Step(s, Button(p, user, Choose(d))), LookupDone(k, true));
      var t := Step(Step(picked, Button(p, user, Save)), SaveDone(k + 1, true));
      && t.confirmations == s.confirmations + [Confirmation(i, user, d, |s.picks| + 1)]
      && t.invoices == s.invoices + [|s.confirmations|] && p !in t.sessions
      && i < |t.objects| && t.objects[i].from == p && t.objects[i].scan == s.objects[i].scan
  {
    PickStepByStep(s, p, user, d);
  }

  /**
   * And whatever has happened, a pending invoice whose owner chooses a destination and saves is registered: what was
   * read of that photo, confirmed by that person, for that destination.
   */
  lemma SavedBecomesInvoice(s: State, p: Phone, user: User, d: Destination)
    requires Inv(s) && Owns(s, p, user)
    ensures var i, t := s.sessions[p], Run(s, ChosenAndSaved(s, p, user, d));
      && t.confirmations == s.confirmations + [Confirmation(i, user, d, |s.picks| + 1)]
      && t.invoices == s.invoices + [|s.confirmations|] && p !in t.sessions
      && i < |t.objects| && t.objects[i].from == p && t.objects[i].scan == s.objects[i].scan
  {
    SavedStepByStep(s, p, user, d);
    RunOfFour(s, Button(p, user, Choose(d)), LookupDone(|s.tasks|, true), Button(p, user, Save),
      SaveDone(|s.tasks| + 1, true));
  }

  lemma RunOfOne(s: State, a: Event)
    ensures Run(s, [a]) == Step(s, a)
  {
  }

  lemma RunOfThree(s: State, a: Event, b: Event, c: Event)
    ensures Run(s, [a, b, c]) == Step(Step(Step(s, a), b), c)
  {
    assert [a, b, c][1..] == [b, c] && [b, c][1..] == [c];
    RunOfOne(Step(Step(s, a), b), c);
  }

  lemma RunOfFour(s: State, a: Event, b: Event, c: Event, d: Event)
    ensures Run(s, [a, b, c, d]) == Step(Step(Step(Step(s, a), b), c), d)
  {
    assert [a, b, c, d][1..] == [b, c, d];
    RunOfThree(Step(s, a), b, c, d);
  }
}
