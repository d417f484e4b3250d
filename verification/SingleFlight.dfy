/** Concurrent validation of account tokens: the refreshes of one account are coalesced into a
    flight whose outcome is broadcast to everyone who finds it.

    Every thread runs EnsureValid once. A step is one critical section, one external call that
    returns, one field write, or one channel operation of one thread. `Choice` carries everything
    the program does not decide: the clock, the outcome of external calls, disk errors. */
module SingleFlight {
  import opened Options
  import opened StepMeasure

  type Id = string

  // A refresh token names the account it was issued for; serials are never reused.
  datatype Token = NoToken | Token(owner: Id, serial: nat)

  datatype Account = Account(refresh: Token, access: nat, online: bool)

  // What an external source of tokens returned.
  datatype TokenSet = TokenSet(refresh: Token, access: nat)

  datatype Reply = Reply(acc: Account, failed: bool)

  datatype Flight = Flight(id: Id, owner: nat, reply: Option<Reply>, closed: bool)

  datatype Outcome =
    | NotFound
    | StillValid(acc: Account)
    | Lapsed(acc: Account)
    | Shared(flight: nat, reply: Reply)

  datatype Pc =
    // EnsureValid
    | Idle(id: Id)
    | Fetched(id: Id, acc: Account)
    | Lapsing(id: Id, acc: Account)
    // refreshInflight
    | Entering(id: Id, acc: Account)
    | Waiting(id: Id, flight: nat)
    | Redeeming(id: Id, acc: Account, flight: nat)
    | Asking(id: Id, acc: Account, flight: nat)
    | Queued(id: Id, acc: Account, flight: nat)
    | Capturing(id: Id, acc: Account, flight: nat)
    | Saving(id: Id, acc: Account, flight: nat, got: Option<TokenSet>)
    | Publishing(id: Id, flight: nat, reply: Reply)
    | Closing(id: Id, flight: nat)
    | Leaving(id: Id, flight: nat)
    | Returned(outcome: Outcome)

  datatype Clock = IntervalDue | Unexpired | Expired

  // How the token endpoint answers a token that it may still redeem. Rotated: with a successor.
  // Unrotated: with an access token alone. Lost: the token is redeemed, but the caller gets an
  // error, because the connection broke, the body could not be decoded or held no access token.
  datatype Answer = Refused | Rotated | Unrotated | Lost

  datatype Choice = Choice(clock: Clock, answer: Answer, ok: bool, rotated: bool, saved: bool)

  // What has happened: the tokens that were redeemed, whether some flight was opened with a
  // snapshot whose token is not the stored one, whether a redeemed token was presented again, and
  // whether some redemption was answered without a successor or not at all.
  datatype Log = Log(spent: set<Token>, staleEntry: bool, replayed: bool, unrotated: bool, lost: bool)

  const NOTHING := Log({}, false, false, false, false)

  // `hook` and `cdp` say which fallbacks are configured.
  datatype State = State(
    hook: bool, cdp: bool,
    threads: seq<Pc>, accounts: map<Id, Account>,
    inflight: map<Id, nat>, flights: seq<Flight>, cdpHolder: Option<nat>,
    nextSerial: nat, log: Log)

  // ----- Steps -----------------------------------------------------------------------

  predicate Enabled(s: State, t: nat) {
    t < |s.threads| &&
    match s.threads[t]
    case Waiting(_, f) => f < |s.flights| && s.flights[f].closed && s.flights[f].reply.Some?
    case Queued(_, _, _) => s.cdpHolder.None?
    case Redeeming(_, _, f) => f < |s.flights|
    case Publishing(_, f, _) => f < |s.flights|
    case Closing(_, f) => f < |s.flights|
    case Leaving(_, f) => f < |s.flights| && s.flights[f].reply.Some?
    case Returned(_) => false
    case _ => true
  }

  function Move(s: State, t: nat, pc: Pc): State
    requires t < |s.threads|
  {
    s.(threads := s.threads[t := pc])
  }

  // After Get: the periodic refresh comes first, then the unexpired token, then the missing one.
  function Decide(id: Id, acc: Account, clock: Clock): Pc {
    match clock
    case IntervalDue => Entering(id, acc)
    case Unexpired => Returned(StillValid(acc))
    case Expired => if acc.refresh.NoToken? then Lapsing(id, acc) else Entering(id, acc)
  }

  // The critical section that joins the flight in progress or opens a new one.
  function Enter(s: State, t: nat, id: Id, acc: Account): State
    requires t < |s.threads|
  {
    if id in s.inflight then Move(s, t, Waiting(id, s.inflight[id]))
    else
      var f := |s.flights|;
      var stale := id in s.accounts && acc.refresh != s.accounts[id].refresh;
      s.(threads := s.threads[t := Redeeming(id, acc, f)],
        inflight := s.inflight[id := f],
        flights := s.flights + [Flight(id, t, None, false)],
        log := s.log.(staleEntry := s.log.staleEntry || stale))
  }

  // The endpoint redeems a token at most once; whether the caller gets the successor is its choice.
  function Redeem(s: State, t: nat, id: Id, acc: Account, f: nat, answer: Answer): State
    requires t < |s.threads|
  {
    var log := s.log.(replayed := s.log.replayed || acc.refresh in s.log.spent);
    var redeemed := log.(spent := log.spent + {acc.refresh});
    var redeems := acc.refresh.Token? && acc.refresh !in s.log.spent;
    if redeems && answer.Rotated? then
      var got := TokenSet(Token(id, s.nextSerial), s.nextSerial + 1);
      s.(threads := s.threads[t := Saving(id, acc, f, Some(got))], nextSerial := s.nextSerial + 2, log := redeemed)
    else if redeems && answer.Unrotated? then
      var got := TokenSet(NoToken, s.nextSerial);
      s.(threads := s.threads[t := Saving(id, acc, f, Some(got))], nextSerial := s.nextSerial + 1,
         log := redeemed.(unrotated := true))
    else
      s.(threads := s.threads[t := AfterRefusal(s, id, acc, f)],
         log := if redeems && answer.Lost? then redeemed.(lost := true) else log)
  }

  function AfterRefusal(s: State, id: Id, acc: Account, f: nat): Pc {
    if s.hook then Asking(id, acc, f) else AfterHook(s, id, acc, f)
  }

  function AfterHook(s: State, id: Id, acc: Account, f: nat): Pc {
    if s.cdp then Queued(id, acc, f) else Saving(id, acc, f, None)
  }

  // The silent sign-in hook; it may or may not bring a new refresh token.
  function Ask(s: State, t: nat, id: Id, acc: Account, f: nat, c: Choice): State
    requires t < |s.threads|
  {
    if c.ok then
      var refresh := if c.rotated then Token(id, s.nextSerial) else NoToken;
      var got := TokenSet(refresh, s.nextSerial + 1);
      s.(threads := s.threads[t := Saving(id, acc, f, Some(got))], nextSerial := s.nextSerial + 2)
    else Move(s, t, AfterHook(s, id, acc, f))
  }

  // The browser capture never brings a refresh token.
  function Capture(s: State, t: nat, id: Id, acc: Account, f: nat, ok: bool): State
    requires t < |s.threads|
  {
    var got := if ok then Some(TokenSet(NoToken, s.nextSerial)) else None;
    s.(threads := s.threads[t := Saving(id, acc, f, got)], cdpHolder := None, nextSerial := s.nextSerial + 1)
  }

  // Success merges the new tokens into the stored account, keeping its refresh token when none
  // was returned; failure writes the snapshot back, marked expired.
  function Save(s: State, t: nat, id: Id, acc: Account, f: nat, got: Option<TokenSet>, saved: bool): State
    requires t < |s.threads|
  {
    match got
    case Some(tok) =>
      var kept := if tok.refresh.NoToken? && id in s.accounts then s.accounts[id].refresh else tok.refresh;
      var merged := Account(kept, tok.access, true);
      s.(threads := s.threads[t := Publishing(id, f, Reply(merged, !saved))],
         accounts := s.accounts[id := merged])
    case None =>
      var expired := acc.(online := false);
      s.(threads := s.threads[t := Publishing(id, f, Reply(expired, true))],
         accounts := if id in s.accounts then s.accounts[id := expired] else s.accounts)
  }

  function Step(s: State, t: nat, c: Choice): State
    requires Enabled(s, t)
  {
    match s.threads[t]
    case Idle(id) =>
      Move(s, t, if id in s.accounts then Fetched(id, s.accounts[id]) else Returned(NotFound))
    case Fetched(id, acc) => Move(s, t, Decide(id, acc, c.clock))
    case Lapsing(id, acc) =>
      var expired := acc.(online := false);
      s.(threads := s.threads[t := Returned(Lapsed(expired))],
         accounts := if id in s.accounts then s.accounts[id := expired] else s.accounts)
    case Entering(id, acc) => Enter(s, t, id, acc)
    case Waiting(_, f) => Move(s, t, Returned(Shared(f, s.flights[f].reply.value)))
    case Redeeming(id, acc, f) => Redeem(s, t, id, acc, f, c.answer)
    case Asking(id, acc, f) => Ask(s, t, id, acc, f, c)
    case Queued(id, acc, f) => s.(threads := s.threads[t := Capturing(id, acc, f)], cdpHolder := Some(t))
    case Capturing(id, acc, f) => Capture(s, t, id, acc, f, c.ok)
    case Saving(id, acc, f, got) => Save(s, t, id, acc, f, got, c.saved)
    case Publishing(id, f, reply) =>
      s.(threads := s.threads[t := Closing(id, f)], flights := s.flights[f := s.flights[f].(reply := Some(reply))])
    case Closing(id, f) =>
      s.(threads := s.threads[t := Leaving(id, f)], flights := s.flights[f := s.flights[f].(closed := true)])
    case Leaving(id, f) =>
      s.(threads := s.threads[t := Returned(Shared(f, s.flights[f].reply.value))], inflight := s.inflight - {id})
  }

  // ----- Runs ----------------------------------------------------------------------------

  datatype Event = Event(thread: nat, choice: Choice)

  // Accounts hold tokens of their own, no flight is open and nothing has been redeemed.
  predicate Init(s: State) {
    && (forall t :: 0 <= t < |s.threads| ==> s.threads[t].Idle?)
    && (forall id <- s.accounts :: Owned(s.accounts[id].refresh, id, s.nextSerial))
    && s.inflight == map[] && s.flights == [] && s.cdpHolder.None?
    && s.log == NOTHING
  }

  predicate Owned(token: Token, id: Id, next: nat) {
    token.NoToken? || (token.owner == id && token.serial < next)
  }

  // The state after the events, or None when one of them was not possible.
  function Run(s: State, events: seq<Event>): Option<State>
    decreases |events|
  {
    if events == [] then Some(s)
    else if !Enabled(s, events[0].thread) then None
    else Run(Step(s, events[0].thread, events[0].choice), events[1..])
  }

  // ----- The flight protocol ----------------------------------------------------------------

  // The thread is between registering a flight and removing it.
  predicate Flying(pc: Pc) {
    pc.Redeeming? || pc.Asking? || pc.Queued? || pc.Capturing? || pc.Saving?
    || pc.Publishing? || pc.Closing? || pc.Leaving?
  }

  predicate OwnsFlight(s: State, t: nat, f: nat) {
    t < |s.threads| && Flying(s.threads[t]) && s.threads[t].flight == f
  }

  // A flying thread owns the registered flight of its account.
  predicate FlyerInv(s: State, t: nat)
    requires t < |s.threads|
  {
    var pc := s.threads[t];
    Flying(pc) ==>
      && pc.id in s.inflight && s.inflight[pc.id] == pc.flight
      && pc.flight < |s.flights| && s.flights[pc.flight].owner == t && s.flights[pc.flight].id == pc.id
  }

  // A flight is open with a flying owner, or closed with its reply.
  predicate FlightInv(s: State, f: nat)
    requires f < |s.flights|
  {
    var flight := s.flights[f];
    if OwnsFlight(s, flight.owner, f) then
      var pc := s.threads[flight.owner];
      && flight.reply.Some? == (pc.Closing? || pc.Leaving?)
      && flight.closed == pc.Leaving?
    else flight.closed && flight.reply.Some?
  }

  predicate RegistryInv(s: State) {
    forall id <- s.inflight ::
      s.inflight[id] < |s.flights| && s.flights[s.inflight[id]].id == id
      && OwnsFlight(s, s.flights[s.inflight[id]].owner, s.inflight[id])
  }

  // Who waits, waits for a flight; who shared one, returned its reply.
  predicate ReaderInv(s: State, t: nat)
    requires t < |s.threads|
  {
    match s.threads[t]
    case Waiting(_, f) => f < |s.flights|
    case Returned(Shared(f, reply)) =>
      f < |s.flights| && s.flights[f].closed && s.flights[f].reply == Some(reply)
    case _ => true
  }

  predicate FlightsInv(s: State) {
    && (forall t :: 0 <= t < |s.threads| ==> FlyerInv(s, t) && ReaderInv(s, t))
    && (forall f :: 0 <= f < |s.flights| ==> FlightInv(s, f))
    && RegistryInv(s)
  }

  // The capture lock is held exactly by the thread that drives the browser.
  predicate CdpInv(s: State) {
    && (forall t :: 0 <= t < |s.threads| ==> (s.threads[t].Capturing? <==> s.cdpHolder == Some(t)))
    && (s.cdpHolder.Some? ==> s.cdpHolder.value < |s.threads|)
  }

  predicate Inv(s: State) {
    FlightsInv(s) && CdpInv(s)
  }

  // Thread `t` moved and no flight changed.
  predicate Aloft(s: State, s': State, t: nat) {
    && t < |s.threads| && |s'.threads| == |s.threads| && s'.threads == s.threads[t := s'.threads[t]]
    && s'.flights == s.flights && s'.inflight == s.inflight
  }

  // What is recorded stays recorded, and the fallbacks stay configured as they are.
  predicate Onward(s: State, s': State) {
    && s.log.spent <= s'.log.spent && (s.log.replayed ==> s'.log.replayed) && (s.log.staleEntry ==> s'.log.staleEntry)
    && (s.log.unrotated ==> s'.log.unrotated) && (s.log.lost ==> s'.log.lost)
    && s'.hook == s.hook && s'.cdp == s.cdp
  }

  // Thread `t` stays in its flight, which it neither writes nor closes.
  predicate InFlight(s: State, s': State, t: nat) {
    && Aloft(s, s', t) && Onward(s, s') && s'.log.staleEntry == s.log.staleEntry
    && var pc, pc' := s.threads[t], s'.threads[t];
    && Flying(pc) && Flying(pc') && pc'.id == pc.id && pc'.flight == pc.flight
    && !pc.Closing? && !pc.Leaving? && !pc'.Closing? && !pc'.Leaving?
  }

  // Thread `t` took a step that has nothing to do with the capture lock.
  predicate LockStays(s: State, s': State, t: nat) {
    && t < |s.threads| && |s'.threads| == |s.threads| && s'.cdpHolder == s.cdpHolder
    && s'.threads == s.threads[t := s'.threads[t]]
    && !s.threads[t].Capturing? && !s'.threads[t].Capturing?
  }

  lemma StepRedeems(s: State, t: nat, c: Choice)
    requires Enabled(s, t) && s.threads[t].Redeeming?
    ensures Step(s, t, c) == Redeem(s, t, s.threads[t].id, s.threads[t].acc, s.threads[t].flight, c.answer)
  {
    hide Redeem, Enter, Ask, Capture, Save, Move, Decide;
  }

  lemma RedeemingRecords(s: State, t: nat, c: Choice)
    requires Enabled(s, t) && s.threads[t].Redeeming?
    ensures var s' := Step(s, t, c); Onward(s, s') && s'.log.staleEntry == s.log.staleEntry
  {
    hide Step, AfterRefusal, Enabled;
    StepRedeems(s, t, c);
  }

  lemma RedeemingStaysAloft(s: State, t: nat, c: Choice)
    requires Enabled(s, t) && s.threads[t].Redeeming?
    ensures var s' := Step(s, t, c);
            && Aloft(s, s', t)
            && (s'.threads[t].Saving? || s'.threads[t].Asking? || s'.threads[t].Queued?)
            && s'.threads[t].id == s.threads[t].id && s'.threads[t].flight == s.threads[t].flight
  {
    hide Step;
    StepRedeems(s, t, c);
  }

  lemma RedeemingMoves(s: State, t: nat, c: Choice)
    requires Enabled(s, t) && s.threads[t].Redeeming?
    ensures InFlight(s, Step(s, t, c), t)
  {
    hide Step, Onward;
    RedeemingRecords(s, t, c);
    RedeemingStaysAloft(s, t, c);
  }

  lemma RedeemingKeepsLock(s: State, t: nat, c: Choice)
    requires Enabled(s, t) && s.threads[t].Redeeming?
    ensures LockStays(s, Step(s, t, c), t)
  {
    hide Step;
    StepRedeems(s, t, c);
  }

  lemma AskingMoves(s: State, t: nat, c: Choice)
    requires Enabled(s, t) && s.threads[t].Asking?
    ensures InFlight(s, Step(s, t, c), t) && LockStays(s, Step(s, t, c), t)
  {
  }

  lemma BrowserMoves(s: State, t: nat, c: Choice)
    requires Enabled(s, t) && (s.threads[t].Queued? || s.threads[t].Capturing?)
    ensures InFlight(s, Step(s, t, c), t)
  {
  }

  lemma SavingMoves(s: State, t: nat, c: Choice)
    requires Enabled(s, t) && s.threads[t].Saving?
    ensures InFlight(s, Step(s, t, c), t)
  {
  }

  lemma SavingKeepsLock(s: State, t: nat, c: Choice)
    requires Enabled(s, t) && s.threads[t].Saving?
    ensures LockStays(s, Step(s, t, c), t)
  {
  }

  // Between opening its flight and publishing the reply.
  predicate Refreshing(pc: Pc) {
    pc.Redeeming? || pc.Asking? || pc.Queued? || pc.Capturing? || pc.Saving?
  }

  lemma RefreshingMoves(s: State, t: nat, c: Choice)
    requires Enabled(s, t) && Refreshing(s.threads[t])
    ensures InFlight(s, Step(s, t, c), t)
    ensures !s.threads[t].Queued? && !s.threads[t].Capturing? ==> LockStays(s, Step(s, t, c), t)
  {
    hide Step, InFlight, LockStays;
    var pc := s.threads[t];
    if pc.Redeeming? {
      RedeemingMoves(s, t, c);
      RedeemingKeepsLock(s, t, c);
    } else if pc.Asking? {
      AskingMoves(s, t, c);
    } else if pc.Saving? {
      SavingMoves(s, t, c);
      SavingKeepsLock(s, t, c);
    } else {
      BrowserMoves(s, t, c);
    }
  }

  // Thread `t` moved on without leaving or entering a flight and without touching one.
  predicate Quiet(s: State, s': State, t: nat) {
    && Aloft(s, s', t)
    && var pc, pc' := s.threads[t], s'.threads[t];
    && (Flying(pc) <==> Flying(pc'))
    && (Flying(pc) ==> pc'.id == pc.id && pc'.flight == pc.flight
                       && !pc.Closing? && !pc.Leaving? && !pc'.Closing? && !pc'.Leaving?)
  }

  lemma QuietKeepsFlights(s: State, s': State, t: nat)
    requires FlightsInv(s) && Quiet(s, s', t) && ReaderInv(s', t)
    ensures FlightsInv(s')
  {
    forall f | 0 <= f < |s'.flights| ensures FlightInv(s', f) {
      assert FlightInv(s, f);
    }
    forall u | 0 <= u < |s'.threads| ensures FlyerInv(s', u) && ReaderInv(s', u) {
      assert FlyerInv(s, u) && ReaderInv(s, u);
    }
  }

  // A lemma for the steps before a flight and one for the steps of a flying thread.
  lemma QuietStepOutside(s: State, t: nat, c: Choice)
    requires FlightsInv(s) && Enabled(s, t) && !Flying(s.threads[t])
    requires s.threads[t].Entering? ==> s.threads[t].id in s.inflight
    ensures Quiet(s, Step(s, t, c), t) && ReaderInv(Step(s, t, c), t)
  {
    if s.threads[t].Waiting? {
      assert ReaderInv(s, t);
    }
  }

  lemma QuietStepFlying(s: State, t: nat, c: Choice)
    requires Enabled(s, t) && Flying(s.threads[t])
    requires !s.threads[t].Publishing? && !s.threads[t].Closing? && !s.threads[t].Leaving?
    ensures Quiet(s, Step(s, t, c), t) && ReaderInv(Step(s, t, c), t)
  {
    hide Step;
    RefreshingMoves(s, t, c);
  }

  lemma OpenKeepsFlights(s: State, t: nat, c: Choice)
    requires FlightsInv(s) && Enabled(s, t) && s.threads[t].Entering?
    requires s.threads[t].id !in s.inflight
    ensures FlightsInv(Step(s, t, c))
  {
    var s' := Step(s, t, c);
    forall f | 0 <= f < |s'.flights| ensures FlightInv(s', f) {
      if f < |s.flights| {
        assert FlightInv(s, f);
      }
    }
    forall u | 0 <= u < |s'.threads| ensures FlyerInv(s', u) && ReaderInv(s', u) {
      assert FlyerInv(s, u) && ReaderInv(s, u);
    }
  }

  // Writing the reply and closing the channel change one flight, which its owner alone holds.
  lemma WriteKeepsFlights(s: State, t: nat, c: Choice)
    requires FlightsInv(s) && Enabled(s, t) && (s.threads[t].Publishing? || s.threads[t].Closing?)
    ensures FlightsInv(Step(s, t, c))
  {
    var s' := Step(s, t, c);
    assert FlyerInv(s, t);
    assert FlightInv(s, s.threads[t].flight);
    forall f | 0 <= f < |s'.flights| ensures FlightInv(s', f) {
      assert FlightInv(s, f);
    }
    forall u | 0 <= u < |s'.threads| ensures FlyerInv(s', u) && ReaderInv(s', u) {
      assert FlyerInv(s, u) && ReaderInv(s, u);
    }
  }

  lemma LeaveKeepsFlights(s: State, t: nat, c: Choice)
    requires FlightsInv(s) && Enabled(s, t) && s.threads[t].Leaving?
    ensures FlightsInv(Step(s, t, c))
  {
    var s' := Step(s, t, c);
    assert FlyerInv(s, t);
    assert FlightInv(s, s.threads[t].flight);
    forall f | 0 <= f < |s'.flights| ensures FlightInv(s', f) {
      assert FlightInv(s, f);
    }
    forall u | 0 <= u < |s'.threads| ensures FlyerInv(s', u) && ReaderInv(s', u) {
      assert FlyerInv(s, u) && ReaderInv(s, u);
    }
    forall id <- s'.inflight
      ensures s'.inflight[id] < |s'.flights| && s'.flights[s'.inflight[id]].id == id
              && OwnsFlight(s', s'.flights[s'.inflight[id]].owner, s'.inflight[id])
    {
      assert id in s.inflight;
    }
  }

  lemma OutsideKeepsLock(s: State, t: nat, c: Choice)
    requires Enabled(s, t) && !Flying(s.threads[t])
    ensures LockStays(s, Step(s, t, c), t)
  {
  }

  lemma FlyingKeepsLock(s: State, t: nat, c: Choice)
    requires Enabled(s, t) && Flying(s.threads[t]) && !s.threads[t].Queued? && !s.threads[t].Capturing?
    ensures LockStays(s, Step(s, t, c), t)
  {
    hide Step;
    if Refreshing(s.threads[t]) {
      RefreshingMoves(s, t, c);
    } else {
      LeavingKeepsLock(s, t, c);
    }
  }

  lemma LeavingKeepsLock(s: State, t: nat, c: Choice)
    requires Enabled(s, t) && (s.threads[t].Publishing? || s.threads[t].Closing? || s.threads[t].Leaving?)
    ensures LockStays(s, Step(s, t, c), t)
  {
  }

  lemma BrowserKeepsCdp(s: State, t: nat, c: Choice)
    requires CdpInv(s) && Enabled(s, t) && (s.threads[t].Queued? || s.threads[t].Capturing?)
    ensures CdpInv(Step(s, t, c))
  {
  }

  lemma StepKeepsCdp(s: State, t: nat, c: Choice)
    requires CdpInv(s) && Enabled(s, t)
    ensures CdpInv(Step(s, t, c))
  {
    hide Step;
    if s.threads[t].Queued? || s.threads[t].Capturing? {
      BrowserKeepsCdp(s, t, c);
    } else if Flying(s.threads[t]) {
      FlyingKeepsLock(s, t, c);
    } else {
      OutsideKeepsLock(s, t, c);
    }
  }

  lemma StepKeepsInv(s: State, t: nat, c: Choice)
    requires Inv(s) && Enabled(s, t)
    ensures Inv(Step(s, t, c))
  {
    StepKeepsCdp(s, t, c);
    var pc := s.threads[t];
    if pc.Entering? && pc.id !in s.inflight {
      OpenKeepsFlights(s, t, c);
    } else if pc.Publishing? || pc.Closing? {
      WriteKeepsFlights(s, t, c);
    } else if pc.Leaving? {
      LeaveKeepsFlights(s, t, c);
    } else {
      if Flying(pc) {
        QuietStepFlying(s, t, c);
      } else {
        QuietStepOutside(s, t, c);
      }
      QuietKeepsFlights(s, Step(s, t, c), t);
    }
  }

  lemma {:induction false} RunKeepsInv(s: State, events: seq<Event>)
    requires Inv(s) && Run(s, events).Some?
    ensures Inv(Run(s, events).value)
    decreases |events|
  {
    if events != [] {
      StepKeepsInv(s, events[0].thread, events[0].choice);
      RunKeepsInv(Step(s, events[0].thread, events[0].choice), events[1..]);
    }
  }

  // ----- What every run keeps --------------------------------------------------------------

  // At any moment of any run, one thread per account is between registering a flight and
  // removing it, it is the registered one, and one browser capture is alive.
  lemma OneFlyerPerAccount(s0: State, events: seq<Event>, t: nat, u: nat)
    requires Init(s0) && Run(s0, events).Some?
    requires var s := Run(s0, events).value;
             t < |s.threads| && u < |s.threads| && Flying(s.threads[t]) && Flying(s.threads[u])
    ensures var s := Run(s0, events).value;
            && (s.threads[t].id == s.threads[u].id ==> t == u)
            && s.threads[t].id in s.inflight && s.inflight[s.threads[t].id] == s.threads[t].flight
            && (s.threads[t].Capturing? && s.threads[u].Capturing? ==> t == u)
  {
    RunKeepsInv(s0, events);
    var s := Run(s0, events).value;
    assert FlyerInv(s, t) && FlyerInv(s, u);
  }

  // A reply, once written, never changes, and it is written before the channel closes.
  predicate RepliesKept(s: State, s': State) {
    && |s.flights| <= |s'.flights|
    && (forall f :: 0 <= f < |s.flights| ==>
          && s'.flights[f].id == s.flights[f].id && s'.flights[f].owner == s.flights[f].owner
          && (s.flights[f].closed ==> s'.flights[f].closed)
          && (s.flights[f].reply.Some? ==> s'.flights[f].reply == s.flights[f].reply))
    && (forall f :: 0 <= f < |s'.flights| && s'.flights[f].closed ==> s'.flights[f].reply.Some?)
  }

  lemma ClosedHasReply(s: State, f: nat)
    requires FlightsInv(s) && f < |s.flights| && s.flights[f].closed
    ensures s.flights[f].reply.Some?
  {
    assert FlightInv(s, f);
  }

  // Only opening a flight, writing its reply and closing it touch the flights.
  ghost predicate TouchesOneFlight(s: State, t: nat, flights: seq<Flight>)
    requires t < |s.threads|
  {
    match s.threads[t]
    case Entering(id, _) =>
      flights == if id in s.inflight then s.flights else s.flights + [Flight(id, t, None, false)]
    case Publishing(_, f, reply) => f < |s.flights| && flights == s.flights[f := s.flights[f].(reply := Some(reply))]
    case Closing(_, f) => f < |s.flights| && flights == s.flights[f := s.flights[f].(closed := true)]
    case _ => flights == s.flights
  }

  lemma EnteringTouchesOneFlight(s: State, t: nat, c: Choice)
    requires Enabled(s, t) && s.threads[t].Entering?
    ensures TouchesOneFlight(s, t, Step(s, t, c).flights)
  {
  }

  lemma OutsideTouchesOneFlight(s: State, t: nat, c: Choice)
    requires Enabled(s, t) && !Flying(s.threads[t]) && !s.threads[t].Entering?
    ensures TouchesOneFlight(s, t, Step(s, t, c).flights)
  {
  }

  lemma LeavingTouchesOneFlight(s: State, t: nat, c: Choice)
    requires Enabled(s, t) && (s.threads[t].Publishing? || s.threads[t].Closing? || s.threads[t].Leaving?)
    ensures TouchesOneFlight(s, t, Step(s, t, c).flights)
  {
  }

  lemma StepTouchesOneFlight(s: State, t: nat, c: Choice)
    requires Enabled(s, t)
    ensures TouchesOneFlight(s, t, Step(s, t, c).flights)
  {
    hide Step;
    if Refreshing(s.threads[t]) {
      RefreshingMoves(s, t, c);
    } else if Flying(s.threads[t]) {
      LeavingTouchesOneFlight(s, t, c);
    } else if s.threads[t].Entering? {
      EnteringTouchesOneFlight(s, t, c);
    } else {
      OutsideTouchesOneFlight(s, t, c);
    }
  }

  lemma StepKeepsReplies(s: State, t: nat, c: Choice)
    requires Inv(s) && Enabled(s, t)
    ensures RepliesKept(s, Step(s, t, c))
  {
    StepKeepsInv(s, t, c);
    var s' := Step(s, t, c);
    forall f | 0 <= f < |s'.flights| && s'.flights[f].closed ensures s'.flights[f].reply.Some? {
      ClosedHasReply(s', f);
    }
    if s.threads[t].Publishing? {
      assert FlyerInv(s, t) && FlightInv(s, s.threads[t].flight);
    }
    StepTouchesOneFlight(s, t, c);
    hide Step, FlightsInv;
  }

  lemma {:induction false} RepliesAreWrittenOnce(s: State, events: seq<Event>)
    requires Inv(s) && Run(s, events).Some?
    ensures RepliesKept(s, Run(s, events).value)
    decreases |events|
  {
    if events == [] {
      forall f | 0 <= f < |s.flights| && s.flights[f].closed ensures s.flights[f].reply.Some? {
        ClosedHasReply(s, f);
      }
    } else {
      hide Step, Inv;
      StepKeepsReplies(s, events[0].thread, events[0].choice);
      StepKeepsInv(s, events[0].thread, events[0].choice);
      RepliesAreWrittenOnce(Step(s, events[0].thread, events[0].choice), events[1..]);
    }
  }

  // Everybody who shared a flight returned the one reply its owner wrote, whoever asks later:
  // `t` had returned after `first`, `u` has returned after `rest` as well.
  lemma SharersReturnTheSameReply(s0: State, first: seq<Event>, rest: seq<Event>, t: nat, u: nat)
    requires Init(s0) && Run(s0, first).Some? && Run(Run(s0, first).value, rest).Some?
    requires var s1, s2 := Run(s0, first).value, Run(Run(s0, first).value, rest).value;
             && t < |s1.threads| && s1.threads[t].Returned? && s1.threads[t].outcome.Shared?
             && u < |s2.threads| && s2.threads[u].Returned? && s2.threads[u].outcome.Shared?
             && s1.threads[t].outcome.flight == s2.threads[u].outcome.flight
    ensures var s1, s2 := Run(s0, first).value, Run(Run(s0, first).value, rest).value;
            s1.threads[t].outcome.reply == s2.threads[u].outcome.reply
  {
    var s1 := Run(s0, first).value;
    var s2 := Run(s1, rest).value;
    RunKeepsInv(s0, first);
    RunKeepsInv(s1, rest);
    RepliesAreWrittenOnce(s1, rest);
    assert ReaderInv(s1, t) && ReaderInv(s2, u);
  }

  // ----- Nobody waits forever -----------------------------------------------------------------

  predicate AllReturned(s: State) {
    forall t :: 0 <= t < |s.threads| ==> s.threads[t].Returned?
  }

  lemma FlyerCanMoveOrCaptureCan(s: State, t: nat) returns (u: nat)
    requires Inv(s) && t < |s.threads| && Flying(s.threads[t])
    ensures Enabled(s, u)
  {
    assert FlyerInv(s, t) && FlightInv(s, s.threads[t].flight);
    if s.threads[t].Queued? && s.cdpHolder.Some? {
      u := s.cdpHolder.value;
    } else {
      u := t;
    }
  }

  // What a thread that has not returned waits for, if for anything: the flight it found is closed
  // with its reply, or the owner of that flight is still flying in it.
  predicate Answerable(s: State, t: nat)
    requires t < |s.threads|
  {
    s.threads[t].Waiting? ==>
      var f := s.threads[t].flight;
      && f < |s.flights|
      && ((s.flights[f].closed && s.flights[f].reply.Some?) || OwnsFlight(s, s.flights[f].owner, f))
  }

  lemma WaiterIsAnswerable(s: State, t: nat)
    requires Inv(s) && t < |s.threads|
    ensures Answerable(s, t)
  {
    assert ReaderInv(s, t);
    if s.threads[t].Waiting? {
      assert FlightInv(s, s.threads[t].flight);
    }
  }

  // Nobody waits for nothing, and in every state of every run that has not finished some thread
  // can take a step.
  lemma SomeoneCanMove(s: State, t: nat) returns (u: nat)
    requires Inv(s) && t < |s.threads| && !s.threads[t].Returned?
    ensures Answerable(s, t) && Enabled(s, u)
  {
    WaiterIsAnswerable(s, t);
    if Enabled(s, t) {
      u := t;
    } else if Flying(s.threads[t]) {
      u := FlyerCanMoveOrCaptureCan(s, t);
    } else {
      u := FlyerCanMoveOrCaptureCan(s, s.flights[s.threads[t].flight].owner);
    }
  }

  function Rank(pc: Pc): nat {
    match pc
    case Idle(_) => 11
    case Fetched(_, _) => 10
    case Entering(_, _) => 9
    case Redeeming(_, _, _) => 8
    case Asking(_, _, _) => 7
    case Queued(_, _, _) => 6
    case Capturing(_, _, _) => 5
    case Saving(_, _, _, _) => 4
    case Publishing(_, _, _) => 3
    case Closing(_, _) => 2
    case Leaving(_, _) => 1
    case Lapsing(_, _) => 1
    case Waiting(_, _) => 1
    case Returned(_) => 0
  }

  lemma ReadingRank(s: State, t: nat, c: Choice)
    requires Enabled(s, t) && (s.threads[t].Idle? || s.threads[t].Fetched?)
    ensures var s' := Step(s, t, c); |s'.threads| == |s.threads| && Rank(s'.threads[t]) < Rank(s.threads[t])
  {
  }

  lemma EnteringRank(s: State, t: nat, c: Choice)
    requires Enabled(s, t) && s.threads[t].Entering?
    ensures var s' := Step(s, t, c); |s'.threads| == |s.threads| && Rank(s'.threads[t]) < Rank(s.threads[t])
  {
  }

  lemma EndingRank(s: State, t: nat, c: Choice)
    requires Enabled(s, t) && (s.threads[t].Lapsing? || s.threads[t].Waiting?)
    ensures var s' := Step(s, t, c); |s'.threads| == |s.threads| && Rank(s'.threads[t]) < Rank(s.threads[t])
  {
  }

  lemma OutsideStepLowersRank(s: State, t: nat, c: Choice)
    requires Enabled(s, t) && !Flying(s.threads[t])
    ensures var s' := Step(s, t, c);
            && |s'.threads| == |s.threads| && s'.threads == s.threads[t := s'.threads[t]]
            && Rank(s'.threads[t]) < Rank(s.threads[t])
  {
    hide Step, Rank;
    OutsideKeepsLock(s, t, c);
    var pc := s.threads[t];
    if pc.Entering? {
      EnteringRank(s, t, c);
    } else if pc.Lapsing? || pc.Waiting? {
      EndingRank(s, t, c);
    } else {
      ReadingRank(s, t, c);
    }
  }

  lemma EarlyStepLowersRank(s: State, t: nat, c: Choice)
    requires Enabled(s, t)
    requires var pc := s.threads[t]; pc.Redeeming? || pc.Asking? || pc.Queued? || pc.Capturing?
    ensures var s' := Step(s, t, c);
            && |s'.threads| == |s.threads| && s'.threads == s.threads[t := s'.threads[t]]
            && Rank(s'.threads[t]) < Rank(s.threads[t])
  {
  }

  lemma SavingLowersRank(s: State, t: nat, c: Choice)
    requires Enabled(s, t) && s.threads[t].Saving?
    ensures var s' := Step(s, t, c); |s'.threads| == |s.threads| && Rank(s'.threads[t]) < Rank(s.threads[t])
  {
  }

  lemma LateStepLowersRank(s: State, t: nat, c: Choice)
    requires Enabled(s, t)
    requires var pc := s.threads[t]; pc.Publishing? || pc.Closing? || pc.Leaving?
    ensures var s' := Step(s, t, c);
            && |s'.threads| == |s.threads| && s'.threads == s.threads[t := s'.threads[t]]
            && Rank(s'.threads[t]) < Rank(s.threads[t])
  {
  }

  lemma StepLowersRank(s: State, t: nat, c: Choice)
    requires Enabled(s, t)
    ensures var s' := Step(s, t, c);
            && |s'.threads| == |s.threads| && s'.threads == s.threads[t := s'.threads[t]]
            && Rank(s'.threads[t]) < Rank(s.threads[t])
  {
    hide Step;
    var pc := s.threads[t];
    if pc.Redeeming? || pc.Asking? || pc.Queued? || pc.Capturing? {
      EarlyStepLowersRank(s, t, c);
    } else if pc.Saving? {
      SavingKeepsLock(s, t, c);
      SavingLowersRank(s, t, c);
    } else if Flying(pc) {
      LateStepLowersRank(s, t, c);
    } else {
      OutsideStepLowersRank(s, t, c);
    }
  }

  lemma {:induction false} WorkBoundsRun(s: State, events: seq<Event>)
    requires Run(s, events).Some?
    ensures |events| + Work(Rank, Run(s, events).value.threads) <= Work(Rank, s.threads)
    decreases |events|
  {
    if events != [] {
      hide Step;
      var t, c := events[0].thread, events[0].choice;
      StepLowersRank(s, t, c);
      WorkAfterMove(Rank, s.threads, t, Step(s, t, c).threads[t]);
      WorkBoundsRun(Step(s, t, c), events[1..]);
    }
  }

  // No run has more than eleven steps per thread, and a run that cannot be continued has
  // answered every caller.
  lemma EveryRunFinishes(s0: State, events: seq<Event>)
    requires Init(s0) && Run(s0, events).Some?
    ensures |events| <= 11 * |s0.threads|
    ensures var s := Run(s0, events).value;
            (forall t: nat | t < |s.threads| :: !Enabled(s, t)) ==> AllReturned(s)
  {
    WorkAtMost(Rank, s0.threads, 11);
    WorkBoundsRun(s0, events);
    RunKeepsInv(s0, events);
    var s := Run(s0, events).value;
    if t: nat :| t < |s.threads| && !s.threads[t].Returned? {
      var u := SomeoneCanMove(s, t);
    }
  }
}
