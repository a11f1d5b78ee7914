/**
 * Registering an invoice over WhatsApp (stp-api/src/fiscal-invoices/whatsapp-invoice-flow.service.ts). Handlers run
 * on one thread and interleave only where they wait, so every step below is the code between two waits. A session is
 * an object that outlives its place in the map, so it is known here by its number and never by its phone.
 */
module WhatsappFlow {
  import opened Wrappers

  // ---------------------------------------------------------------- state

  type Phone = nat
  type User = nat

  const SESSION_TTL_MS := 20 * 60 * 1000
  const FAILED_MEDIA_TTL_MS := 6 * 60 * 60 * 1000

  datatype Destination = Project(id: nat) | General | Unassigned

  /** What was read of the photo; `complete` if no field needed is missing, `duplicate` if already registered. */
  datatype Scan = Scan(ncf: nat, complete: bool, duplicate: bool)

  datatype Reading = NoFile | Unreadable | Saturated | Read(scan: Scan, viaQr: bool)

  datatype Session = Session(from: Phone, user: User, scan: Scan, destination: Option<Destination>, expiresAt: nat)

  /**
   * A handler that waits: for the reading, for its replies to be sent, for a project, for the invoice to be created.
   */
  datatype Task =
    | ReadingPhoto(from: Phone, user: User)
    | Replying(from: Phone)
    | LookingUp(session: nat, user: User, choice: Destination)
    | Saving(confirmation: nat)
    | Finished

  /** A destination chosen with a button and found. */
  datatype Pick = Pick(session: nat, user: User, destination: Destination)

  /** "Guardar" pressed on a session that had a destination, when `picksBefore` picks had been made. */
  datatype Confirmation = Confirmation(session: nat, user: User, destination: Destination, picksBefore: nat)

  datatype State = State(
    clock: nat,
    objects: seq<Session>,
    sessions: map<Phone, nat>,
    processing: set<Phone>,
    failedMedia: map<Phone, nat>,
    tasks: seq<Task>,
    picks: seq<Pick>,
    confirmations: seq<Confirmation>,
    invoices: seq<nat>)  // the confirmations whose invoice was created, in order

  datatype Choice = CancelButton | Back | KindProject | More | Save | Choose(destination: Destination)

  datatype Event =
    | Photo(from: Phone, user: User)
    | Retry(from: Phone, user: User)
    | CancelText(from: Phone)
    | Search(from: Phone, length: nat)
    | Button(from: Phone, user: User, choice: Choice)
    | ReadDone(task: nat, result: Reading)
    | Released(task: nat)
    | LookupDone(task: nat, found: bool)
    | SaveDone(task: nat, created: bool)
    | Tick(ms: nat)

  function Empty(): State {
    State(0, [], map[], {}, map[], [], [], [], [])
  }

  // ---------------------------------------------------------------- steps

  /** `dropExpired`, run when any message comes in. */
  function DropExpired(s: State): State {
    s.(sessions := map p | p in s.sessions && s.sessions[p] < |s.objects|
                           && s.objects[s.sessions[p]].expiresAt >= s.clock :: s.sessions[p])
  }

  function StartReading(s: State, from: Phone, user: User): State {
    s.(processing := s.processing + {from}, tasks := s.tasks + [ReadingPhoto(from, user)])
  }

  function OnFile(s: State, from: Phone, user: User): State {
    if from in s.processing || from in s.sessions then s else StartReading(s, from, user)
  }

  function OnRetry(s: State, from: Phone, user: User): State {
    if from !in s.failedMedia || s.failedMedia[from] < s.clock then s.(failedMedia := s.failedMedia - {from})
    else if from in s.sessions || from in s.processing then s
    else StartReading(s, from, user)
  }

  function Cancelled(s: State, from: Phone): State {
    s.(sessions := s.sessions - {from})
  }

  function WithSession(s: State, i: nat, o: Session): State
    requires i < |s.objects|
  {
    s.(objects := s.objects[i := o])
  }

  predicate Searchable(length: nat) {
    2 <= length <= 60
  }

  /** Words to search a project by, if there is a session and the text is neither too short nor too long for a name. */
  function OnSearch(s: State, from: Phone, length: nat): State {
    if Searchable(length) && from in s.sessions && s.sessions[from] < |s.objects| then
      var i := s.sessions[from];
      WithSession(s, i, s.objects[i].(destination := None))
    else s
  }

  function OnSave(s: State, from: Phone, i: nat, user: User): State
    requires i < |s.objects|
  {
    match s.objects[i].destination
    case None => s
    case Some(d) =>
      s.(sessions := s.sessions - {from},
         confirmations := s.confirmations + [Confirmation(i, user, d, |s.picks|)],
         tasks := s.tasks + [Saving(|s.confirmations|)])
  }

  function Renewed(s: State, i: nat): State
    requires i < |s.objects|
  {
    WithSession(s, i, s.objects[i].(expiresAt := s.clock + SESSION_TTL_MS))
  }

  function OnOwnersChoice(s: State, from: Phone, i: nat, user: User, choice: Choice): State
    requires i < |s.objects|
  {
    match choice
    case Back => WithSession(s, i, s.objects[i].(destination := None))
    case Save => OnSave(s, from, i, user)
    case Choose(d) => s.(tasks := s.tasks + [LookingUp(i, user, d)])
    case _ => s
  }

  function OnChoice(s: State, from: Phone, user: User, choice: Choice): State {
    if choice.CancelButton? then Cancelled(s, from)
    else if from !in s.sessions || s.sessions[from] >= |s.objects| || s.objects[s.sessions[from]].user != user then s
    else
      var i := s.sessions[from];
      OnOwnersChoice(Renewed(s, i), from, i, user, choice)
  }

  function Opened(s: State, from: Phone, user: User, scan: Scan): State {
    s.(objects := s.objects + [Session(from, user, scan, None, s.clock + SESSION_TTL_MS)],
       sessions := s.sessions[from := |s.objects|])
  }

  /** A photo that was read: what the model kept for a retry is dropped, and a complete, new invoice opens a session. */
  function OnRead(s: State, from: Phone, user: User, scan: Scan, viaQr: bool): State {
    var t := if viaQr then s else s.(failedMedia := s.failedMedia - {from});
    if scan.complete && !scan.duplicate then Opened(t, from, user, scan) else t
  }

  /** Reading came to an end: a legible, new invoice opens a session; the lock is kept until the replies are sent. */
  function OnReadDone(s: State, k: nat, result: Reading): State {
    if k < |s.tasks| && s.tasks[k].ReadingPhoto? then
      var from := s.tasks[k].from;
      var t := s.(tasks := s.tasks[k := Replying(from)]);
      match result
      case NoFile | Unreadable => t
      case Saturated => t.(failedMedia := t.failedMedia[from := s.clock + FAILED_MEDIA_TTL_MS])
      case Read(scan, viaQr) =>
        OnRead(t, from, s.tasks[k].user, scan, viaQr)
    else s
  }

  function OnReleased(s: State, k: nat): State {
    if k < |s.tasks| && s.tasks[k].Replying? then
      s.(processing := s.processing - {s.tasks[k].from}, tasks := s.tasks[k := Finished])
    else s
  }

  function Picked(s: State, i: nat, d: Destination): State
    requires i < |s.objects|
  {
    WithSession(s, i, s.objects[i].(destination := Some(d))).(picks := s.picks + [Pick(i, s.objects[i].user, d)])
  }

  /** The project arrived: the destination is written on the session object the handler was holding. */
  function OnLookupDone(s: State, k: nat, found: bool): State {
    if k < |s.tasks| && s.tasks[k].LookingUp? then
      var t := s.(tasks := s.tasks[k := Finished]);
      var i := s.tasks[k].session;
      if (found || !s.tasks[k].choice.Project?) && i < |s.objects| then
        Picked(t, i, s.tasks[k].choice)
      else t
    else s
  }

  function OnSaveDone(s: State, k: nat, created: bool): State {
    if k < |s.tasks| && s.tasks[k].Saving? then
      var t := s.(tasks := s.tasks[k := Finished]);
      if created then t.(invoices := s.invoices + [s.tasks[k].confirmation]) else t
    else s
  }

  function Step(s: State, ev: Event): State {
    match ev
    case Photo(from, user) => OnFile(DropExpired(s), from, user)
    case Retry(from, user) => OnRetry(DropExpired(s), from, user)
    case CancelText(from) => Cancelled(DropExpired(s), from)
    case Search(from, length) => OnSearch(DropExpired(s), from, length)
    case Button(from, user, choice) => OnChoice(DropExpired(s), from, user, choice)
    case ReadDone(k, result) => OnReadDone(s, k, result)
    case Released(k) => OnReleased(s, k)
    case LookupDone(k, found) => OnLookupDone(s, k, found)
    case SaveDone(k, created) => OnSaveDone(s, k, created)
    case Tick(ms) => s.(clock := s.clock + ms)
  }

  function Run(s: State, evs: seq<Event>): State
    decreases evs
  {
    if evs == [] then s else Run(Step(s, evs[0]), evs[1..])
  }

  // ---------------------------------------------------------------- invariant

  function LastPick(picks: seq<Pick>, session: nat): Option<Pick> {
    if picks == [] then None
    else if picks[|picks| - 1].session == session then Some(picks[|picks| - 1])
    else LastPick(picks[..|picks| - 1], session)
  }

  /** A reading keeps its sender's place in `processing`. */
  predicate Holds(t: Task) {
    t.ReadingPhoto? || t.Replying?
  }

  ghost predicate LocksOk(s: State) {
    && (forall k :: 0 <= k < |s.tasks| && Holds(s.tasks[k]) ==> s.tasks[k].from in s.processing)
    && (forall k :: 0 <= k < |s.tasks| && s.tasks[k].ReadingPhoto? ==> s.tasks[k].from !in s.sessions)
    && (forall j, k :: 0 <= j < k < |s.tasks| && Holds(s.tasks[j]) && Holds(s.tasks[k]) ==>
          s.tasks[j].from != s.tasks[k].from)
  }

  ghost predicate SessionsOk(s: State) {
    && (forall p :: p in s.sessions ==> s.sessions[p] < |s.objects| && s.objects[s.sessions[p]].from == p)
    && (forall i :: 0 <= i < |s.objects| && s.objects[i].destination.Some? ==>
          LastPick(s.picks, i) == Some(Pick(i, s.objects[i].user, s.objects[i].destination.value)))
    && (forall k :: 0 <= k < |s.tasks| && s.tasks[k].LookingUp? ==>
          s.tasks[k].session < |s.objects| && s.objects[s.tasks[k].session].user == s.tasks[k].user)
  }

  /** Pressed by the owner of the session, on the last destination picked in that session. */
  ghost predicate ConfirmationOk(s: State, c: Confirmation) {
    && c.session < |s.objects| && c.user == s.objects[c.session].user
    && c.picksBefore <= |s.picks|
    && LastPick(s.picks[..c.picksBefore], c.session) == Some(Pick(c.session, c.user, c.destination))
    && (forall p :: p in s.sessions ==> s.sessions[p] != c.session)
  }

  ghost predicate ConfirmationsOk(s: State) {
    && (forall i :: 0 <= i < |s.confirmations| ==> ConfirmationOk(s, s.confirmations[i]))
    && (forall i, j :: 0 <= i < j < |s.confirmations| ==> s.confirmations[i].session != s.confirmations[j].session)
  }

  /** Every confirmation is being saved at most once and has at most one invoice. */
  ghost predicate InvoicesOk(s: State) {
    && (forall k :: 0 <= k < |s.tasks| && s.tasks[k].Saving? ==>
          s.tasks[k].confirmation < |s.confirmations| && s.tasks[k].confirmation !in s.invoices)
    && (forall j, k :: 0 <= j < k < |s.tasks| && s.tasks[j].Saving? && s.tasks[k].Saving? ==>
          s.tasks[j].confirmation != s.tasks[k].confirmation)
    && (forall i :: 0 <= i < |s.invoices| ==> s.invoices[i] < |s.confirmations|)
    && (forall i, j :: 0 <= i < j < |s.invoices| ==> s.invoices[i] != s.invoices[j])
  }

  ghost predicate Inv(s: State) {
    LocksOk(s) && SessionsOk(s) && ConfirmationsOk(s) && InvoicesOk(s)
  }

  lemma DropExpiredKeepsInv(s: State)
    requires Inv(s)
    ensures Inv(DropExpired(s))
  {
    FewerSessionsKeepsInv(s, DropExpired(s).sessions);
  }

  /** Sessions may leave the map at any time. */
  lemma FewerSessionsKeepsInv(s: State, fewer: map<Phone, nat>)
    requires Inv(s) && forall p :: p in fewer ==> p in s.sessions && fewer[p] == s.sessions[p]
    ensures Inv(s.(sessions := fewer))
  {
    var t := s.(sessions := fewer);
    forall i | 0 <= i < |t.confirmations|
      ensures ConfirmationOk(t, t.confirmations[i])
    {
      assert ConfirmationOk(s, s.confirmations[i]);
    }
  }

  /** A session may change its destination to none, or its expiry. */
  lemma SessionUpdateKeepsInv(s: State, i: nat, o: Session)
    requires Inv(s) && i < |s.objects| && o.from == s.objects[i].from && o.user == s.objects[i].user
    requires o.destination.None? || o.destination == s.objects[i].destination
    ensures Inv(WithSession(s, i, o))
  {
    var t := WithSession(s, i, o);
    forall c | 0 <= c < |t.confirmations|
      ensures ConfirmationOk(t, t.confirmations[c])
    {
      assert ConfirmationOk(s, s.confirmations[c]);
    }
  }

  /** A new task that holds no lock and saves nothing. */
  lemma LookupStartKeepsInv(s: State, i: nat, user: User, d: Destination)
    requires Inv(s) && i < |s.objects| && s.objects[i].user == user
    ensures Inv(s.(tasks := s.tasks + [LookingUp(i, user, d)]))
  {
    var t := s.(tasks := s.tasks + [LookingUp(i, user, d)]);
    forall c | 0 <= c < |t.confirmations|
      ensures ConfirmationOk(t, t.confirmations[c])
    {
      assert ConfirmationOk(s, s.confirmations[c]);
    }
  }

  lemma StartReadingKeepsInv(s: State, from: Phone, user: User)
    requires Inv(s) && from !in s.processing && from !in s.sessions
    ensures Inv(StartReading(s, from, user))
  {
    var t := StartReading(s, from, user);
    forall c | 0 <= c < |t.confirmations|
      ensures ConfirmationOk(t, t.confirmations[c])
    {
      assert ConfirmationOk(s, s.confirmations[c]);
    }
  }

  lemma SaveKeepsInv(s: State, from: Phone, i: nat, user: User)
    requires Inv(s) && from in s.sessions && s.sessions[from] == i && i < |s.objects| && s.objects[i].user == user
    ensures Inv(OnSave(s, from, i, user))
  {
    var t := OnSave(s, from, i, user);
    assert s.picks[..|s.picks|] == s.picks;
    forall c | 0 <= c < |t.confirmations|
      ensures ConfirmationOk(t, t.confirmations[c])
    {
      assert c < |s.confirmations| ==> ConfirmationOk(s, s.confirmations[c]);
    }
    assert forall k :: 0 <= k < |s.invoices| ==> s.invoices[k] < |s.confirmations|;
  }

  lemma RenewedKeepsInv(s: State, i: nat)
    requires Inv(s) && i < |s.objects|
    ensures var t := Renewed(s, i);
      Inv(t) && t.sessions == s.sessions && |t.objects| == |s.objects| && t.objects[i].user == s.objects[i].user
  {
    SessionUpdateKeepsInv(s, i, s.objects[i].(expiresAt := s.clock + SESSION_TTL_MS));
  }

  lemma OwnersChoiceKeepsInv(s: State, from: Phone, i: nat, user: User, choice: Choice)
    requires Inv(s) && from in s.sessions && s.sessions[from] == i && i < |s.objects| && s.objects[i].user == user
    ensures Inv(OnOwnersChoice(s, from, i, user, choice))
  {
    match choice
    case Back => SessionUpdateKeepsInv(s, i, s.objects[i].(destination := None));
    case Save => SaveKeepsInv(s, from, i, user);
    case Choose(d) => LookupStartKeepsInv(s, i, user, d);
    case _ =>
  }

  lemma ChoiceKeepsInv(s: State, from: Phone, user: User, choice: Choice)
    requires Inv(s)
    ensures Inv(OnChoice(s, from, user, choice))
  {
    if choice.CancelButton? {
      FewerSessionsKeepsInv(s, s.sessions - {from});
    } else if from in s.sessions && s.sessions[from] < |s.objects| && s.objects[s.sessions[from]].user == user {
      var i := s.sessions[from];
      RenewedKeepsInv(s, i);
      OwnersChoiceKeepsInv(Renewed(s, i), from, i, user, choice);
    }
  }

  /** A waiting task goes on to its next wait or ends; it gives up what it held except the lock it says it keeps. */
  lemma TaskMoveKeepsInv(s: State, k: nat, t: Task)
    requires Inv(s) && k < |s.tasks|
    requires t == Finished || (Holds(s.tasks[k]) && t == Replying(s.tasks[k].from))
    ensures Inv(s.(tasks := s.tasks[k := t]))
  {
    var u := s.(tasks := s.tasks[k := t]);
    forall c | 0 <= c < |u.confirmations|
      ensures ConfirmationOk(u, u.confirmations[c])
    {
      assert ConfirmationOk(s, s.confirmations[c]);
    }
  }

  lemma OpenKeepsInv(s: State, from: Phone, user: User, scan: Scan)
    requires Inv(s) && forall k :: 0 <= k < |s.tasks| && s.tasks[k].ReadingPhoto? ==> s.tasks[k].from != from
    ensures Inv(Opened(s, from, user, scan))
  {
    var t := Opened(s, from, user, scan);
    forall c | 0 <= c < |t.confirmations|
      ensures ConfirmationOk(t, t.confirmations[c])
    {
      assert ConfirmationOk(s, s.confirmations[c]);
    }
  }

  lemma ReadKeepsInv(s: State, from: Phone, user: User, scan: Scan, viaQr: bool)
    requires Inv(s) && forall k :: 0 <= k < |s.tasks| && s.tasks[k].ReadingPhoto? ==> s.tasks[k].from != from
    ensures Inv(OnRead(s, from, user, scan, viaQr))
  {
    MediaKeepsInv(s, s.failedMedia - {from});
    OpenKeepsInv(if viaQr then s else s.(failedMedia := s.failedMedia - {from}), from, user, scan);
  }

  lemma ReadDoneKeepsInv(s: State, k: nat, result: Reading)
    requires Inv(s)
    ensures Inv(OnReadDone(s, k, result))
  {
    if k < |s.tasks| && s.tasks[k].ReadingPhoto? {
      var from := s.tasks[k].from;
      assert Holds(s.tasks[k]);
      TaskMoveKeepsInv(s, k, Replying(from));
      var t := s.(tasks := s.tasks[k := Replying(from)]);
      assert forall j :: 0 <= j < |t.tasks| && t.tasks[j].ReadingPhoto? ==> t.tasks[j].from != from by {
        assert Holds(t.tasks[k]);
        assert forall j :: 0 <= j < |t.tasks| && t.tasks[j].ReadingPhoto? ==> Holds(t.tasks[j]);
      }
      match result
      case Saturated => MediaKeepsInv(t, t.failedMedia[from := s.clock + FAILED_MEDIA_TTL_MS]);
      case Read(scan, viaQr) => ReadKeepsInv(t, from, s.tasks[k].user, scan, viaQr);
      case _ =>
    }
  }

  lemma ReleasedKeepsInv(s: State, k: nat)
    requires Inv(s)
    ensures Inv(OnReleased(s, k))
  {
    var t := OnReleased(s, k);
    forall c | 0 <= c < |t.confirmations|
      ensures ConfirmationOk(t, t.confirmations[c])
    {
      assert ConfirmationOk(s, s.confirmations[c]);
    }
  }

  lemma PickKeepsInv(s: State, i: nat, d: Destination)
    requires Inv(s) && i < |s.objects|
    ensures Inv(Picked(s, i, d))
  {
    var t := Picked(s, i, d);
    forall c | 0 <= c < |t.confirmations|
      ensures ConfirmationOk(t, t.confirmations[c])
    {
      assert ConfirmationOk(s, s.confirmations[c]);
      var n := s.confirmations[c].picksBefore;
      assert t.picks[..n] == s.picks[..n];
    }
    assert t.picks[..|s.picks|] == s.picks;
  }

  lemma LookupDoneKeepsInv(s: State, k: nat, found: bool)
    requires Inv(s)
    ensures Inv(OnLookupDone(s, k, found))
  {
    if k < |s.tasks| && s.tasks[k].LookingUp? {
      TaskMoveKeepsInv(s, k, Finished);
      PickKeepsInv(s.(tasks := s.tasks[k := Finished]), s.tasks[k].session, s.tasks[k].choice);
    }
  }

  lemma SaveDoneKeepsInv(s: State, k: nat, created: bool)
    requires Inv(s)
    ensures Inv(OnSaveDone(s, k, created))
  {
    var t := OnSaveDone(s, k, created);
    forall c | 0 <= c < |t.confirmations|
      ensures ConfirmationOk(t, t.confirmations[c])
    {
      assert ConfirmationOk(s, s.confirmations[c]);
    }
  }

  lemma RetryKeepsInv(s: State, from: Phone, user: User)
    requires Inv(s)
    ensures Inv(OnRetry(s, from, user))
  {
    if from !in s.processing && from !in s.sessions {
      StartReadingKeepsInv(s, from, user);
    }
    MediaKeepsInv(s, s.failedMedia - {from});
  }

  lemma PhotoKeepsInv(s: State, from: Phone, user: User)
    requires Inv(s)
    ensures Inv(OnFile(s, from, user))
  {
    if from !in s.processing && from !in s.sessions {
      StartReadingKeepsInv(s, from, user);
    }
  }

  lemma SearchKeepsInv(s: State, from: Phone, length: nat)
    requires Inv(s)
    ensures Inv(OnSearch(s, from, length))
  {
    if from in s.sessions {
      var i := s.sessions[from];
      SessionUpdateKeepsInv(s, i, s.objects[i].(destination := None));
    }
  }

  predicate IsMessage(ev: Event) {
    ev.Photo? || ev.Retry? || ev.CancelText? || ev.Search? || ev.Button?
  }

  lemma MessageKeepsInv(s: State, ev: Event)
    requires Inv(s) && IsMessage(ev)
    ensures Inv(Step(s, ev))
  {
    DropExpiredKeepsInv(s);
    var d := DropExpired(s);
    match ev
    case Photo(from, user) => PhotoKeepsInv(d, from, user);
    case Retry(from, user) => RetryKeepsInv(d, from, user);
    case CancelText(from) => FewerSessionsKeepsInv(d, d.sessions - {from});
    case Search(from, length) => SearchKeepsInv(d, from, length);
    case Button(from, user, choice) => ChoiceKeepsInv(d, from, user, choice);
  }

  lemma StepKeepsInv(s: State, ev: Event)
    requires Inv(s)
    ensures Inv(Step(s, ev))
  {
    match ev
    case ReadDone(k, result) => ReadDoneKeepsInv(s, k, result);
    case Released(k) => ReleasedKeepsInv(s, k);
    case LookupDone(k, found) => LookupDoneKeepsInv(s, k, found);
    case SaveDone(k, created) => SaveDoneKeepsInv(s, k, created);
    case Tick(ms) => ClockKeepsInv(s, s.clock + ms);
    case _ => MessageKeepsInv(s, ev);
  }

  lemma MediaKeepsInv(s: State, media: map<Phone, nat>)
    requires Inv(s)
    ensures Inv(s.(failedMedia := media))
  {
    var t := s.(failedMedia := media);
    forall c | 0 <= c < |t.confirmations|
      ensures ConfirmationOk(t, t.confirmations[c])
    {
      assert ConfirmationOk(s, s.confirmations[c]);
    }
  }

  lemma ClockKeepsInv(s: State, clock: nat)
    requires Inv(s)
    ensures Inv(s.(clock := clock))
  {
    var t := s.(clock := clock);
    forall c | 0 <= c < |t.confirmations|
      ensures ConfirmationOk(t, t.confirmations[c])
    {
      assert ConfirmationOk(s, s.confirmations[c]);
    }
  }

  lemma {:induction false} RunKeepsInv(s: State, evs: seq<Event>)
    requires Inv(s)
    ensures Inv(Run(s, evs))
    decreases evs
  {
    if evs != [] {
      StepKeepsInv(s, evs[0]);
      RunKeepsInv(Step(s, evs[0]), evs[1..]);
    }
  }

  // ---------------------------------------------------------------- safety of every run

  /** Never two photos of one sender at once. */
  lemma OnePhotoPerSender(evs: seq<Event>, j: nat, k: nat)
    requires var s := Run(Empty(), evs);
      j < k < |s.tasks| && Holds(s.tasks[j]) && Holds(s.tasks[k])
    ensures var s := Run(Empty(), evs);
      s.tasks[j].from != s.tasks[k].from
  {
    RunKeepsInv(Empty(), evs);
  }

  /** Where a session is opened its sender has none: no photo takes the place of a pending one. */
  lemma ReadDoneOverwritesNothing(s: State, k: nat, result: Reading, p: Phone)
    requires Inv(s) && p in s.sessions
    ensures p in OnReadDone(s, k, result).sessions && OnReadDone(s, k, result).sessions[p] == s.sessions[p]
  {
    assert k < |s.tasks| && s.tasks[k].ReadingPhoto? ==> s.tasks[k].from != p;
  }

  lemma ChoicesOpenNothing(s: State, from: Phone, user: User, choice: Choice, p: Phone)
    ensures p in OnChoice(s, from, user, choice).sessions ==>
              p in s.sessions && OnChoice(s, from, user, choice).sessions[p] == s.sessions[p]
  {
  }

  lemma OtherStepsOpenNothing(s: State, ev: Event, p: Phone)
    requires !ev.ReadDone?
    ensures p in Step(s, ev).sessions ==> p in s.sessions && Step(s, ev).sessions[p] == s.sessions[p]
  {
    if ev.Button? {
      ChoicesOpenNothing(DropExpired(s), ev.from, ev.user, ev.choice, p);
    }
  }

  /** A step that puts a session in the map puts it where there was none. */
  lemma NoSessionIsOverwritten(evs: seq<Event>, ev: Event, p: Phone)
    requires var s := Run(Empty(), evs);
      p in s.sessions && p in Step(s, ev).sessions
    ensures var s := Run(Empty(), evs);
      Step(s, ev).sessions[p] == s.sessions[p]
  {
    RunKeepsInv(Empty(), evs);
    var s := Run(Empty(), evs);
    if ev.ReadDone? {
      ReadDoneOverwritesNothing(s, ev.task, ev.result, p);
    } else {
      OtherStepsOpenNothing(s, ev, p);
    }
  }

  /** Two invoices never come from one session. */
  lemma OneInvoicePerSession(evs: seq<Event>, i: nat, j: nat)
    requires var s := Run(Empty(), evs);
      i < j < |s.invoices|
    ensures var s := Run(Empty(), evs);
      && s.invoices[i] < |s.confirmations| && s.invoices[j] < |s.confirmations|
      && s.confirmations[s.invoices[i]].session != s.confirmations[s.invoices[j]].session
  {
    RunKeepsInv(Empty(), evs);
    var s := Run(Empty(), evs);
    var a, b := s.invoices[i], s.invoices[j];
    assert a < b ==> s.confirmations[a].session != s.confirmations[b].session;
    assert b < a ==> s.confirmations[b].session != s.confirmations[a].session;
  }

  /**
   * Every invoice was confirmed by the person who sent the photo, with the last destination picked in that same
   * session.
   */
  lemma InvoicesWereConfirmed(evs: seq<Event>, i: nat)
    requires var s := Run(Empty(), evs);
      i < |s.invoices|
    ensures var s := Run(Empty(), evs);
      && s.invoices[i] < |s.confirmations|
      && var c := s.confirmations[s.invoices[i]];
         && c.session < |s.objects| && c.user == s.objects[c.session].user
         && c.picksBefore <= |s.picks|
         && LastPick(s.picks[..c.picksBefore], c.session) == Some(Pick(c.session, c.user, c.destination))
         && forall p :: p in s.sessions ==> s.sessions[p] != c.session
  {
    RunKeepsInv(Empty(), evs);
    var s := Run(Empty(), evs);
    assert ConfirmationOk(s, s.confirmations[s.invoices[i]]);
  }

  // ---------------------------------------------------------------- reading with retries

  const SCAN_MAX_TRIES := 4

  /** One call of the reader: a result, a passing failure (saturation, timeout), or one that repeating will not mend. */
  datatype Scanned = ScanOk(scan: Scan) | Transient | Permanent

  /**
   * `scanWithRetry`. `reader(k)` is what the k-th try gives. Only passing failures are tried again, at most four
   * times in all; the sender is warned once, and the photo is kept exactly when the service stayed saturated.
   */
  method ScanWithRetry(reader: nat -> Scanned) returns (scan: Option<Scan>, tries: nat, warnings: nat, kept: bool)
    ensures 1 <= tries <= 4
    ensures forall k :: 1 <= k < tries ==> reader(k).Transient?
    ensures reader(tries).Transient? ==> tries == 4
    ensures scan == if reader(tries).ScanOk? then Some(reader(tries).scan) else None
    ensures warnings == if tries > 1 then 1 else 0
    ensures kept <==> forall k :: 1 <= k <= 4 ==> reader(k).Transient?
  {
    var attempt := 1;
    warnings := 0;
    while true
      invariant 1 <= attempt <= SCAN_MAX_TRIES
      invariant forall k :: 1 <= k < attempt ==> reader(k).Transient?
      invariant warnings == if attempt > 1 then 1 else 0
      decreases SCAN_MAX_TRIES - attempt
    {
      match reader(attempt) {
        case ScanOk(result) => return Some(result), attempt, warnings, false;
        case Permanent => return None, attempt, warnings, false;
        case Transient =>
          if attempt == SCAN_MAX_TRIES {
            return None, attempt, warnings, true;
          }
          if warnings == 0 {
            warnings := 1;
          }
      }
      attempt := attempt + 1;
    }
  }

  // ---------------------------------------------------------------- the list of projects, page by page

  const MAX_ROWS := 10
  const PAGE_STEP := 9

  function Smaller(a: nat, b: nat): nat {
    if a < b then a else b
  }

  /** `slice(page * 9, page * 9 + PAGE)`. */
  function PageOf<T>(projects: seq<T>, page: nat): seq<T> {
    var size := if |projects| > MAX_ROWS then PAGE_STEP else MAX_ROWS;
    var lo := Smaller(page * PAGE_STEP, |projects|);
    projects[lo..Smaller(page * PAGE_STEP + size, |projects|)]
  }

  /** The row "Ver más" is added. */
  predicate OffersMore(total: nat, page: nat) {
    total > MAX_ROWS && (page + 1) * PAGE_STEP < total
  }

  /** What somebody sees who keeps pressing "Ver más", from this page on. */
  function Walk<T>(projects: seq<T>, page: nat): seq<T>
    decreases |projects| - page
  {
    if OffersMore(|projects|, page) then PageOf(projects, page) + Walk(projects, page + 1) else PageOf(projects, page)
  }

  lemma {:induction false} WalkFrom<T>(projects: seq<T>, page: nat)
    requires page == 0 || OffersMore(|projects|, page - 1)
    ensures page * PAGE_STEP <= |projects| && Walk(projects, page) == projects[page * PAGE_STEP..]
    decreases |projects| - page
  {
    if OffersMore(|projects|, page) {
      WalkFrom(projects, page + 1);
    }
  }

  /** Every project is shown exactly once and in order, in lists of at most ten rows and at least one project. */
  lemma PagesShowEveryProjectOnce<T>(projects: seq<T>)
    ensures Walk(projects, 0) == projects
    ensures forall page: nat :: |PageOf(projects, page)| + (if OffersMore(|projects|, page) then 1 else 0) <= 10
    ensures forall page: nat :: |projects| > 0 && (page == 0 || OffersMore(|projects|, page - 1)) ==>
      PageOf(projects, page) != []
  {
    WalkFrom(projects, 0);
  }

  // ---------------------------------------------------------------- the code that takes the steps

  class InvoiceFlow {
    var clock: nat
    var objects: seq<Session>
    var sessions: map<Phone, nat>
    var processing: set<Phone>
    var failedMedia: map<Phone, nat>
    var tasks: seq<Task>
    var picks: seq<Pick>
    var confirmations: seq<Confirmation>
    var invoices: seq<nat>

    ghost function Now(): State
      reads this
    {
      State(clock, objects, sessions, processing, failedMedia, tasks, picks, confirmations, invoices)
    }

    constructor ()
      ensures Now() == Empty()
    {
      clock, objects, sessions, processing, failedMedia := 0, [], map[], {}, map[];
      tasks, picks, confirmations, invoices := [], [], [], [];
    }

    method DropExpiredSessions()
      modifies this
      ensures Now() == DropExpired(old(Now()))
    {
      sessions := map p | p in sessions && sessions[p] < |objects| && objects[sessions[p]].expiresAt >= clock ::
        sessions[p];
    }

    /** `onFile`, up to its first wait. `task` is the reading it started. */
    method ReceiveFile(from: Phone, user: User) returns (task: Option<nat>)
      modifies this
      ensures Now() == Step(old(Now()), Photo(from, user))
      ensures task.Some? ==> task.value < |tasks| && tasks[task.value] == ReadingPhoto(from, user)
      ensures task.None? <==> tasks == old(tasks)
    {
      DropExpiredSessions();
      if from in processing || from in sessions {
        return None;
      }
      processing := processing + {from};
      tasks := tasks + [ReadingPhoto(from, user)];
      return Some(|tasks| - 1);
    }

    /** `onText`; `lower` is the text in lower case and `length` that of the text as it came. */
    method ReceiveText(from: Phone, user: User, lower: string, length: nat)
      modifies this
      ensures Now() == Step(old(Now()),
        if lower in ["cancelar", "cancel", "no"] then CancelText(from)
        else if lower in ["reintentar", "reintenta", "retry"] then Retry(from, user)
        else Search(from, length))
    {
      DropExpiredSessions();
      if lower in ["cancelar", "cancel", "no"] {
        sessions := sessions - {from};
      } else if lower in ["reintentar", "reintenta", "retry"] {
        if from !in failedMedia || failedMedia[from] < clock {
          failedMedia := failedMedia - {from};
        } else if from !in sessions && from !in processing {
          processing := processing + {from};
          tasks := tasks + [ReadingPhoto(from, user)];
        }
      } else if from in sessions && sessions[from] < |objects| && Searchable(length) {
        objects := objects[sessions[from] := objects[sessions[from]].(destination := None)];
      }
    }

    /** `onChoice`, up to its first wait. */
    method ReceiveChoice(from: Phone, user: User, choice: Choice)
      modifies this
      ensures Now() == Step(old(Now()), Button(from, user, choice))
    {
      DropExpiredSessions();
      if choice.CancelButton? {
        sessions := sessions - {from};
        return;
      }
      if from !in sessions || sessions[from] >= |objects| || objects[sessions[from]].user != user {
        return;
      }
      var session := sessions[from];
      objects := objects[session := objects[session].(expiresAt := clock + SESSION_TTL_MS)];
      match choice {
        case Back => objects := objects[session := objects[session].(destination := None)];
        case Save => SaveSession(from, user, session);
        case Choose(d) => tasks := tasks + [LookingUp(session, user, d)];
        case _ =>
      }
    }

    /** `save`: the session leaves the map before anything is created. */
    method SaveSession(from: Phone, user: User, session: nat)
      requires session < |objects|
      modifies this
      ensures Now() == OnSave(old(Now()), from, session, user)
    {
      match objects[session].destination {
        case None =>
        case Some(d) =>
          sessions := sessions - {from};
          tasks := tasks + [Saving(|confirmations|)];
          confirmations := confirmations + [Confirmation(session, user, d, |picks|)];
      }
    }

    /** The rest of `processScan`, once the photo was read or could not be. */
    method FinishReading(task: nat, result: Reading)
      requires task < |tasks| && tasks[task].ReadingPhoto?
      modifies this
      ensures Now() == Step(old(Now()), ReadDone(task, result))
    {
      var from, user := tasks[task].from, tasks[task].user;
      tasks := tasks[task := Replying(from)];
      match result {
        case NoFile =>
        case Unreadable =>
        case Saturated => failedMedia := failedMedia[from := clock + FAILED_MEDIA_TTL_MS];
        case Read(scan, viaQr) =>
          if !viaQr {
            failedMedia := failedMedia - {from};
          }
          if scan.complete && !scan.duplicate {
            sessions := sessions[from := |objects|];
            objects := objects + [Session(from, user, scan, None, clock + SESSION_TTL_MS)];
          }
      }
    }

    /** `finally { this.processing.delete(msg.from) }`. */
    method Release(task: nat)
      requires task < |tasks| && tasks[task].Replying?
      modifies this
      ensures Now() == Step(old(Now()), Released(task))
    {
      processing := processing - {tasks[task].from};
      tasks := tasks[task := Finished];
    }

    /** `session.destination = dest`, on the object the handler kept while it waited. */
    method FinishLookup(task: nat, found: bool)
      requires task < |tasks| && tasks[task].LookingUp?
      modifies this
      ensures Now() == Step(old(Now()), LookupDone(task, found))
    {
      var session, d := tasks[task].session, tasks[task].choice;
      tasks := tasks[task := Finished];
      if (found || !d.Project?) && session < |objects| {
        objects := objects[session := objects[session].(destination := Some(d))];
        picks := picks + [Pick(session, objects[session].user, d)];
      }
    }

    method FinishSave(task: nat, created: bool)
      requires task < |tasks| && tasks[task].Saving?
      modifies this
      ensures Now() == Step(old(Now()), SaveDone(task, created))
    {
      if created {
        invoices := invoices + [tasks[task].confirmation];
      }
      tasks := tasks[task := Finished];
    }
  }
}
