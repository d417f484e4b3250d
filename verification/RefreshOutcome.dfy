/** What a caller of EnsureValid gets: decided by the account it reads and by the clock, and, when
    the account has to be refreshed, by what the sources of tokens answer to the flight. */
module RefreshOutcome {
  import opened Options
  import opened SingleFlight

  // ----- The caller's own reading ----------------------------------------------------------------

  // What a caller has seen: its account or that there is none, then what its clock says.
  datatype Seen = Unseen | Missing | Read(acc: Account) | Judged(acc: Account, clock: Clock)

  // The caller of `id` reads the store at its first step and the clock at its second.
  function Watch(s: State, e: Event, t: nat, id: Id, seen: Seen): Seen {
    if e.thread != t then seen
    else
      match seen
      case Unseen => if id in s.accounts then Read(s.accounts[id]) else Missing
      case Read(acc) => Judged(acc, e.choice.clock)
      case _ => seen
  }

  function Watched(s: State, events: seq<Event>, t: nat, id: Id, seen: Seen): Seen
    requires Run(s, events).Some?
    decreases |events|
  {
    if events == [] then seen
    else Watched(Step(s, events[0].thread, events[0].choice), events[1..], t, id, Watch(s, events[0], t, id, seen))
  }

  // Unexpired and not due: the account itself. Expired without a refresh token: refused.
  predicate MustRefresh(seen: Seen) {
    seen.Judged? && (seen.clock.IntervalDue? || (seen.clock.Expired? && seen.acc.refresh.Token?))
  }

  predicate Hopeless(seen: Seen) {
    seen.Judged? && seen.clock.Expired? && seen.acc.refresh.NoToken?
  }

  predicate Usable(seen: Seen) {
    seen.Judged? && seen.clock.Unexpired?
  }

  // Where a caller stands is explained by what it has seen.
  predicate Explained(pc: Pc, id: Id, seen: Seen) {
    match pc
    case Idle(i) => i == id && seen == Unseen
    case Fetched(i, acc) => i == id && seen == Read(acc)
    case Lapsing(i, acc) => i == id && Hopeless(seen) && acc == seen.acc
    case Entering(i, acc) => i == id && MustRefresh(seen) && acc == seen.acc
    case Waiting(i, _) => i == id && MustRefresh(seen)
    case Redeeming(i, acc, _) => i == id && MustRefresh(seen) && acc == seen.acc
    case Asking(i, acc, _) => i == id && MustRefresh(seen) && acc == seen.acc
    case Queued(i, acc, _) => i == id && MustRefresh(seen) && acc == seen.acc
    case Capturing(i, acc, _) => i == id && MustRefresh(seen) && acc == seen.acc
    case Saving(i, acc, _, _) => i == id && MustRefresh(seen) && acc == seen.acc
    case Publishing(i, _, _) => i == id && MustRefresh(seen)
    case Closing(i, _) => i == id && MustRefresh(seen)
    case Leaving(i, _) => i == id && MustRefresh(seen)
    case Returned(NotFound) => seen == Missing
    case Returned(StillValid(acc)) => Usable(seen) && acc == seen.acc
    case Returned(Lapsed(acc)) => Hopeless(seen) && acc == seen.acc.(online := false)
    case Returned(Shared(_, _)) => MustRefresh(seen)
  }

  lemma EarlyIsExplained(s: State, t: nat, c: Choice, id: Id, seen: Seen)
    requires Enabled(s, t) && Explained(s.threads[t], id, seen)
    requires s.threads[t].Idle? || s.threads[t].Fetched? || s.threads[t].Lapsing?
    ensures Explained(Step(s, t, c).threads[t], id, Watch(s, Event(t, c), t, id, seen))
  {
  }

  lemma JoiningIsExplained(s: State, t: nat, c: Choice, id: Id, seen: Seen)
    requires Enabled(s, t) && Explained(s.threads[t], id, seen)
    requires s.threads[t].Entering? || s.threads[t].Waiting?
    ensures Explained(Step(s, t, c).threads[t], id, Watch(s, Event(t, c), t, id, seen))
  {
  }

  lemma RedeemingIsExplained(s: State, t: nat, c: Choice, id: Id, seen: Seen)
    requires Enabled(s, t) && Explained(s.threads[t], id, seen) && s.threads[t].Redeeming?
    ensures Explained(Step(s, t, c).threads[t], id, Watch(s, Event(t, c), t, id, seen))
  {
    StepRedeems(s, t, c);
    hide Step;
  }

  lemma AskingIsExplained(s: State, t: nat, c: Choice, id: Id, seen: Seen)
    requires Enabled(s, t) && Explained(s.threads[t], id, seen)
    requires s.threads[t].Asking? || s.threads[t].Queued? || s.threads[t].Capturing?
    ensures Explained(Step(s, t, c).threads[t], id, Watch(s, Event(t, c), t, id, seen))
  {
  }

  lemma LateIsExplained(s: State, t: nat, c: Choice, id: Id, seen: Seen)
    requires Enabled(s, t) && Explained(s.threads[t], id, seen)
    requires var pc := s.threads[t]; pc.Saving? || pc.Publishing? || pc.Closing? || pc.Leaving?
    ensures Explained(Step(s, t, c).threads[t], id, Watch(s, Event(t, c), t, id, seen))
  {
  }

  lemma StepIsExplained(s: State, e: Event, t: nat, id: Id, seen: Seen)
    requires Enabled(s, e.thread) && t < |s.threads| && Explained(s.threads[t], id, seen)
    ensures var s' := Step(s, e.thread, e.choice);
            |s'.threads| == |s.threads| && Explained(s'.threads[t], id, Watch(s, e, t, id, seen))
  {
    hide Step, Explained, Rank;
    StepLowersRank(s, e.thread, e.choice);
    if e.thread == t {
      var pc := s.threads[t];
      if pc.Idle? || pc.Fetched? || pc.Lapsing? {
        EarlyIsExplained(s, t, e.choice, id, seen);
      } else if pc.Entering? || pc.Waiting? {
        JoiningIsExplained(s, t, e.choice, id, seen);
      } else if pc.Redeeming? {
        RedeemingIsExplained(s, t, e.choice, id, seen);
      } else if pc.Asking? || pc.Queued? || pc.Capturing? {
        AskingIsExplained(s, t, e.choice, id, seen);
      } else {
        LateIsExplained(s, t, e.choice, id, seen);
      }
    }
  }

  lemma {:induction false} RunIsExplained(s: State, events: seq<Event>, t: nat, id: Id, seen: Seen)
    requires Run(s, events).Some? && t < |s.threads| && Explained(s.threads[t], id, seen)
    ensures var s' := Run(s, events).value;
            |s'.threads| == |s.threads| && Explained(s'.threads[t], id, Watched(s, events, t, id, seen))
    decreases |events|
  {
    if events != [] {
      hide Step, Explained, Watch;
      StepIsExplained(s, events[0], t, id, seen);
      RunIsExplained(Step(s, events[0].thread, events[0].choice), events[1..], t, id, Watch(s, events[0], t, id, seen));
    }
  }

  // Over every run, a caller that has returned was told that there is no such account exactly when
  // there was none at its read; it got the account it read exactly when that was unexpired and not
  // due; it was refused, with that account marked offline, exactly when that had expired without a
  // refresh token; and it shared the reply of a flight exactly when that had to be refreshed.
  lemma OutcomeIsDecided(s0: State, events: seq<Event>, t: nat)
    requires Init(s0) && Run(s0, events).Some? && t < |s0.threads|
    requires t < |Run(s0, events).value.threads| && Run(s0, events).value.threads[t].Returned?
    ensures var outcome := Run(s0, events).value.threads[t].outcome;
            var seen := Watched(s0, events, t, s0.threads[t].id, Unseen);
            && (outcome == NotFound <==> seen == Missing)
            && (outcome.StillValid? <==> Usable(seen)) && (outcome.StillValid? ==> outcome.acc == seen.acc)
            && (outcome.Lapsed? <==> Hopeless(seen))
            && (outcome.Lapsed? ==> outcome.acc == seen.acc.(online := false))
            && (outcome.Shared? <==> MustRefresh(seen))
  {
    RunIsExplained(s0, events, t, s0.threads[t].id, Unseen);
  }

  // ----- What a flight brings --------------------------------------------------------------------------

  // The tokens a flight was given; a source may give no refresh token.
  datatype Tokens = NoTokens | Given(refresh: Token, access: nat)

  // What happened to the flight of a thread: what it was given, the refresh token stored when it
  // saved, and whether the store could be written.
  datatype Flown = Flown(given: Tokens, stored: Token, saved: bool)

  const UNFLOWN := Flown(NoTokens, NoToken, true)

  predicate Redeemable(s: State, acc: Account) {
    acc.refresh.Token? && acc.refresh !in s.log.spent
  }

  function Follow(s: State, e: Event, t: nat, flown: Flown): Flown
    requires Enabled(s, e.thread)
  {
    if e.thread != t then flown
    else
      var c, n := e.choice, s.nextSerial;
      match s.threads[t]
      case Redeeming(id, acc, _) =>
        if Redeemable(s, acc) && c.answer.Rotated? then flown.(given := Given(Token(id, n), n + 1))
        else if Redeemable(s, acc) && c.answer.Unrotated? then flown.(given := Given(NoToken, n))
        else flown
      case Asking(id, _, _) =>
        if c.ok then flown.(given := Given(if c.rotated then Token(id, n) else NoToken, n + 1)) else flown
      case Capturing(_, _, _) => if c.ok then flown.(given := Given(NoToken, n)) else flown
      case Saving(id, _, _, _) =>
        flown.(stored := if id in s.accounts then s.accounts[id].refresh else NoToken, saved := c.saved)
      case _ => flown
  }

  function Followed(s: State, events: seq<Event>, t: nat, flown: Flown): Flown
    requires Run(s, events).Some?
    decreases |events|
  {
    if events == [] then flown
    else Followed(Step(s, events[0].thread, events[0].choice), events[1..], t, Follow(s, events[0], t, flown))
  }

  // The reply of a flight opened with this account: what it was given, with the stored refresh
  // token when that brought none; or its own account, marked offline.
  predicate Brings(reply: Reply, acc: Account, flown: Flown) {
    match flown.given
    case Given(refresh, access) =>
      && reply.acc == Account(if refresh.Token? then refresh else flown.stored, access, true)
      && (reply.failed <==> !flown.saved)
    case NoTokens => reply == Reply(acc.(online := false), true)
  }

  // Where a flyer stands is explained by what it was given.
  predicate Borne(s: State, t: nat, seen: Seen, flown: Flown)
    requires t < |s.threads|
  {
    match s.threads[t]
    case Asking(_, _, _) => flown == UNFLOWN
    case Queued(_, _, _) => flown == UNFLOWN
    case Capturing(_, _, _) => flown == UNFLOWN
    case Saving(_, _, _, got) =>
      if got.Some? then flown == UNFLOWN.(given := Given(got.value.refresh, got.value.access)) else flown == UNFLOWN
    case Publishing(_, _, reply) => seen.Judged? && Brings(reply, seen.acc, flown)
    case Closing(_, f) => PublishedBy(s, t, f, seen, flown)
    case Leaving(_, f) => PublishedBy(s, t, f, seen, flown)
    case Returned(Shared(f, _)) => f < |s.flights| && s.flights[f].owner == t ==> PublishedBy(s, t, f, seen, flown)
    case Waiting(_, f) => flown == UNFLOWN && (f < |s.flights| ==> s.flights[f].owner != t)
    case _ => flown == UNFLOWN
  }

  predicate PublishedBy(s: State, t: nat, f: nat, seen: Seen, flown: Flown) {
    && f < |s.flights| && s.flights[f].owner == t && s.flights[f].reply.Some?
    && seen.Judged? && Brings(s.flights[f].reply.value, seen.acc, flown)
  }

  lemma EarlyIsBorne(s: State, t: nat, c: Choice, seen: Seen, flown: Flown)
    requires Inv(s) && Enabled(s, t) && Borne(s, t, seen, flown) && !Flying(s.threads[t])
    ensures Borne(Step(s, t, c), t, seen, Follow(s, Event(t, c), t, flown))
  {
    assert FlyerInv(s, t) && ReaderInv(s, t);
    if s.threads[t].Entering? {
      EnteringIsBorne(s, t, c, seen, flown);
    }
  }

  // Whoever finds a flight did not open it.
  lemma EnteringIsBorne(s: State, t: nat, c: Choice, seen: Seen, flown: Flown)
    requires Inv(s) && Enabled(s, t) && Borne(s, t, seen, flown) && s.threads[t].Entering?
    ensures Borne(Step(s, t, c), t, seen, Follow(s, Event(t, c), t, flown))
  {
    var id := s.threads[t].id;
    if id in s.inflight {
      assert OwnsFlight(s, s.flights[s.inflight[id]].owner, s.inflight[id]);
    }
  }

  lemma RedeemingIsBorne(s: State, t: nat, c: Choice, seen: Seen, flown: Flown)
    requires Enabled(s, t) && Borne(s, t, seen, flown) && s.threads[t].Redeeming?
    ensures Borne(Step(s, t, c), t, seen, Follow(s, Event(t, c), t, flown))
  {
    StepRedeems(s, t, c);
    hide Step;
  }

  lemma AskingIsBorne(s: State, t: nat, c: Choice, seen: Seen, flown: Flown)
    requires Enabled(s, t) && Borne(s, t, seen, flown)
    requires s.threads[t].Asking? || s.threads[t].Queued? || s.threads[t].Capturing?
    ensures Borne(Step(s, t, c), t, seen, Follow(s, Event(t, c), t, flown))
  {
  }

  lemma SavingIsBorne(s: State, t: nat, c: Choice, id: Id, seen: Seen, flown: Flown)
    requires Enabled(s, t) && Borne(s, t, seen, flown) && s.threads[t].Saving?
    requires Explained(s.threads[t], id, seen)
    ensures Borne(Step(s, t, c), t, seen, Follow(s, Event(t, c), t, flown))
  {
  }

  lemma LandingIsBorne(s: State, t: nat, c: Choice, seen: Seen, flown: Flown)
    requires Inv(s) && Enabled(s, t) && Borne(s, t, seen, flown)
    requires s.threads[t].Publishing? || s.threads[t].Closing? || s.threads[t].Leaving?
    ensures Borne(Step(s, t, c), t, seen, Follow(s, Event(t, c), t, flown))
  {
    assert FlyerInv(s, t);
  }

  lemma OtherIsBorne(s: State, s': State, t: nat, seen: Seen, flown: Flown)
    requires t < |s.threads| && t < |s'.threads| && s'.threads[t] == s.threads[t] && ReaderInv(s, t)
    requires RepliesKept(s, s') && Borne(s, t, seen, flown)
    ensures Borne(s', t, seen, flown)
  {
  }

  lemma StepIsBorne(s: State, e: Event, t: nat, id: Id, seen: Seen, flown: Flown)
    requires Inv(s) && Enabled(s, e.thread) && t < |s.threads|
    requires Explained(s.threads[t], id, seen) && Borne(s, t, seen, flown)
    ensures var s' := Step(s, e.thread, e.choice);
            |s'.threads| == |s.threads| && Borne(s', t, Watch(s, e, t, id, seen), Follow(s, e, t, flown))
  {
    StepLowersRank(s, e.thread, e.choice);
    var pc := s.threads[t];
    if e.thread != t {
      assert ReaderInv(s, t);
      StepKeepsReplies(s, e.thread, e.choice);
      hide Step, Explained, Borne, FlightsInv, RepliesKept;
      OtherIsBorne(s, Step(s, e.thread, e.choice), t, seen, flown);
    } else {
      BorneWatched(s, e, t, id, seen, flown);
    }
  }

  lemma BorneWatched(s: State, e: Event, t: nat, id: Id, seen: Seen, flown: Flown)
    requires Inv(s) && Enabled(s, t) && e.thread == t && |Step(s, t, e.choice).threads| == |s.threads|
    requires Explained(s.threads[t], id, seen) && Borne(s, t, seen, flown)
    ensures Borne(Step(s, t, e.choice), t, Watch(s, e, t, id, seen), Follow(s, e, t, flown))
  {
    hide Step, Borne, Follow;
    var pc, later := s.threads[t], Watch(s, e, t, id, seen);
    assert e == Event(t, e.choice);
    SeenStays(s, t, id, seen, flown, later);
    if pc.Redeeming? {
      RedeemingIsBorne(s, t, e.choice, later, flown);
    } else if pc.Asking? || pc.Queued? || pc.Capturing? {
      AskingIsBorne(s, t, e.choice, later, flown);
    } else if pc.Saving? {
      SavingIsBorne(s, t, e.choice, id, later, flown);
    } else if Flying(pc) {
      LandingIsBorne(s, t, e.choice, later, flown);
    } else {
      EarlyIsBorne(s, t, e.choice, later, flown);
    }
  }

  // What has been judged is not judged again, and before that there is no flight.
  lemma SeenStays(s: State, t: nat, id: Id, seen: Seen, flown: Flown, later: Seen)
    requires t < |s.threads| && Explained(s.threads[t], id, seen) && Borne(s, t, seen, flown)
    requires seen.Judged? || seen.Missing? ==> later == seen
    ensures Borne(s, t, later, flown)
    ensures seen.Judged? ==> Explained(s.threads[t], id, later)
    ensures Flying(s.threads[t]) ==> seen.Judged?
  {
  }

  lemma {:induction false} RunIsBorne(s: State, events: seq<Event>, t: nat, id: Id, seen: Seen, flown: Flown)
    requires Inv(s) && Run(s, events).Some? && t < |s.threads|
    requires Explained(s.threads[t], id, seen) && Borne(s, t, seen, flown)
    ensures var s' := Run(s, events).value;
            && t < |s'.threads|
            && Borne(s', t, Watched(s, events, t, id, seen), Followed(s, events, t, flown))
    decreases |events|
  {
    if events != [] {
      hide Step, Explained, Borne, Watch, Follow, Inv;
      var e := events[0];
      StepKeepsInv(s, e.thread, e.choice);
      StepIsExplained(s, e, t, id, seen);
      StepIsBorne(s, e, t, id, seen, flown);
      RunIsBorne(Step(s, e.thread, e.choice), events[1..], t, id, Watch(s, e, t, id, seen), Follow(s, e, t, flown));
    }
  }

  // Over every run the reply of a flight is what its owner was given: the access token of the
  // endpoint, the hook or the capture, online, with the refresh token that came with it or the
  // stored one; failed only if the store could not be written. With nothing given it is the
  // account the owner had read, offline and failed. Everyone who shares the flight returns it.
  lemma FlightBringsWhatWasGiven(s0: State, events: seq<Event>, t: nat, u: nat)
    requires Init(s0) && Run(s0, events).Some?
    requires var s := Run(s0, events).value;
             && t < |s0.threads| && t < |s.threads| && u < |s.threads|
             && s.threads[t].Returned? && s.threads[t].outcome.Shared?
             && s.threads[t].outcome.flight < |s.flights| && s.flights[s.threads[t].outcome.flight].owner == t
             && s.threads[u].Returned? && s.threads[u].outcome.Shared?
             && s.threads[u].outcome.flight == s.threads[t].outcome.flight
    ensures var s := Run(s0, events).value;
            var seen := Watched(s0, events, t, s0.threads[t].id, Unseen);
            seen.Judged? && Brings(s.threads[u].outcome.reply, seen.acc, Followed(s0, events, t, UNFLOWN))
  {
    var id, s := s0.threads[t].id, Run(s0, events).value;
    RunIsBorne(s0, events, t, id, Unseen, UNFLOWN);
    RunKeepsInv(s0, events);
    assert ReaderInv(s, u);
  }

  // ----- The store ------------------------------------------------------------------------------------------

  // Saving puts the account of the reply into the store, in the place of the old one, and leaves
  // the others alone; after a failure only an account that is there.
  lemma SavingStoresTheReply(s: State, t: nat, c: Choice)
    requires Enabled(s, t) && s.threads[t].Saving?
    ensures var s', id := Step(s, t, c), s.threads[t].id;
            && s'.threads[t].Publishing?
            && (s.threads[t].got.Some? ==> id in s'.accounts)
            && (id in s'.accounts ==> s'.accounts[id] == s'.threads[t].reply.acc)
            && s.accounts.Keys <= s'.accounts.Keys <= s.accounts.Keys + {id}
            && forall k :: k in s.accounts && k != id ==> s'.accounts[k] == s.accounts[k]
  {
  }

  // Refusing a caller marks its account offline and leaves the others alone.
  lemma LapsingMarksTheAccount(s: State, t: nat, c: Choice)
    requires Enabled(s, t) && s.threads[t].Lapsing?
    ensures var s', id := Step(s, t, c), s.threads[t].id;
            && s'.accounts.Keys == s.accounts.Keys
            && (id in s.accounts ==> s'.accounts[id] == s.threads[t].acc.(online := false))
            && forall k :: k in s.accounts && k != id ==> s'.accounts[k] == s.accounts[k]
  {
  }

  lemma RedeemingLeavesTheStore(s: State, t: nat, c: Choice)
    requires Enabled(s, t) && s.threads[t].Redeeming?
    ensures Step(s, t, c).accounts == s.accounts
  {
    StepRedeems(s, t, c);
    hide Step;
  }

  lemma OutsideLeavesTheStore(s: State, t: nat, c: Choice)
    requires Enabled(s, t) && !Flying(s.threads[t]) && !s.threads[t].Lapsing?
    ensures Step(s, t, c).accounts == s.accounts
  {
  }

  lemma FlyingLeavesTheStore(s: State, t: nat, c: Choice)
    requires Enabled(s, t) && Flying(s.threads[t]) && !s.threads[t].Redeeming? && !s.threads[t].Saving?
    ensures Step(s, t, c).accounts == s.accounts
  {
  }

  // No other step writes the store.
  lemma OtherStepsLeaveTheStore(s: State, t: nat, c: Choice)
    requires Enabled(s, t) && !s.threads[t].Saving? && !s.threads[t].Lapsing?
    ensures Step(s, t, c).accounts == s.accounts
  {
    hide Step;
    if s.threads[t].Redeeming? {
      RedeemingLeavesTheStore(s, t, c);
    } else if Flying(s.threads[t]) {
      FlyingLeavesTheStore(s, t, c);
    } else {
      OutsideLeavesTheStore(s, t, c);
    }
  }
}
