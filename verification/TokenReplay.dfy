/** When a redeemed refresh token is presented again. A flight is opened with an account read
    earlier, and coalescing alone does not make the token it carries the stored one; and the stored
    one may itself be redeemed, when the endpoint's answer brought no successor. */
module TokenReplay {
  import opened Options
  import opened SingleFlight

  // ----- Tokens change hands only within their account -------------------------------------

  predicate HasAccount(pc: Pc) {
    !pc.Idle? && !pc.Waiting? && !pc.Publishing? && !pc.Closing? && !pc.Leaving? && !pc.Returned?
  }

  predicate Pending(pc: Pc) {
    pc.Saving? && pc.got.Some? && pc.got.value.refresh.Token?
  }

  // The flyer has not had its token accepted.
  predicate Holding(pc: Pc) {
    pc.Redeeming? || pc.Asking? || pc.Queued? || pc.Capturing? || (pc.Saving? && pc.got.None?)
  }

  predicate PcOwned(s: State, pc: Pc) {
    && (HasAccount(pc) ==> pc.id in s.accounts && Owned(pc.acc.refresh, pc.id, s.nextSerial))
    && (Pending(pc) ==> Owned(pc.got.value.refresh, pc.id, s.nextSerial))
    && (pc.Lapsing? ==> pc.acc.refresh.NoToken?)
  }

  predicate OwnInv(s: State) {
    && (forall t :: 0 <= t < |s.threads| ==> PcOwned(s, s.threads[t]))
    && (forall id <- s.accounts :: Owned(s.accounts[id].refresh, id, s.nextSerial))
    && (forall token <- s.log.spent :: token.Token? && token.serial < s.nextSerial)
  }

  // One thread moved, serials only grew, no account was dropped.
  predicate OwnMove(s: State, s': State, t: nat) {
    && t < |s.threads| && |s'.threads| == |s.threads| && s'.threads == s.threads[t := s'.threads[t]]
    && s.nextSerial <= s'.nextSerial && PcOwned(s', s'.threads[t])
    && (forall id <- s.accounts :: id in s'.accounts)
    && (forall id <- s'.accounts :: (id in s.accounts && s'.accounts[id].refresh == s.accounts[id].refresh)
                                    || Owned(s'.accounts[id].refresh, id, s'.nextSerial))
    && (s'.log.spent == s.log.spent || (HasAccount(s.threads[t]) && s.threads[t].acc.refresh.Token?
                                && s'.log.spent == s.log.spent + {s.threads[t].acc.refresh}))
  }

  lemma MoveKeepsOwn(s: State, s': State, t: nat)
    requires OwnInv(s) && OwnMove(s, s', t)
    ensures OwnInv(s')
  {
    assert PcOwned(s, s.threads[t]);
    forall u | 0 <= u < |s'.threads| ensures PcOwned(s', s'.threads[u]) {
      assert PcOwned(s, s.threads[u]);
    }
  }

  lemma EnteringStepOwned(s: State, t: nat, c: Choice)
    requires OwnInv(s) && Enabled(s, t) && s.threads[t].Entering?
    ensures OwnMove(s, Step(s, t, c), t)
  {
    assert PcOwned(s, s.threads[t]);
  }

  lemma OutsideStepOwned(s: State, t: nat, c: Choice)
    requires OwnInv(s) && Enabled(s, t) && !Flying(s.threads[t]) && !s.threads[t].Entering?
    ensures OwnMove(s, Step(s, t, c), t)
  {
    assert PcOwned(s, s.threads[t]);
  }

  lemma RedeemingStepOwned(s: State, t: nat, c: Choice)
    requires OwnInv(s) && Enabled(s, t)
    requires s.threads[t].Redeeming?
    ensures OwnMove(s, Step(s, t, c), t)
  {
    hide Step;
    StepRedeems(s, t, c);
    assert PcOwned(s, s.threads[t]);
  }

  lemma AskingStepOwned(s: State, t: nat, c: Choice)
    requires OwnInv(s) && Enabled(s, t)
    requires s.threads[t].Asking?
    ensures OwnMove(s, Step(s, t, c), t)
  {
    assert PcOwned(s, s.threads[t]);
  }

  lemma ExpiringStepOwned(s: State, t: nat, c: Choice)
    requires OwnInv(s) && Enabled(s, t) && s.threads[t].Saving? && s.threads[t].got.None?
    ensures OwnMove(s, Step(s, t, c), t)
  {
    assert PcOwned(s, s.threads[t]);
  }

  lemma SavingStepOwned(s: State, t: nat, c: Choice)
    requires OwnInv(s) && Enabled(s, t) && s.threads[t].Saving? && s.threads[t].got.Some?
    ensures OwnMove(s, Step(s, t, c), t)
  {
    assert PcOwned(s, s.threads[t]);
  }

  lemma BrowserStepOwned(s: State, t: nat, c: Choice)
    requires OwnInv(s) && Enabled(s, t) && (s.threads[t].Queued? || s.threads[t].Capturing?)
    ensures OwnMove(s, Step(s, t, c), t)
  {
    assert PcOwned(s, s.threads[t]);
  }

  lemma LateStepOwned(s: State, t: nat, c: Choice)
    requires OwnInv(s) && Enabled(s, t)
    requires var pc := s.threads[t]; pc.Publishing? || pc.Closing? || pc.Leaving?
    ensures OwnMove(s, Step(s, t, c), t)
  {
    assert PcOwned(s, s.threads[t]);
  }

  lemma StepKeepsOwn(s: State, t: nat, c: Choice)
    requires OwnInv(s) && Enabled(s, t)
    ensures OwnInv(Step(s, t, c))
  {
    hide Step;
    var pc := s.threads[t];
    if pc.Entering? {
      EnteringStepOwned(s, t, c);
    } else if !Flying(pc) {
      OutsideStepOwned(s, t, c);
    } else if pc.Redeeming? {
      RedeemingStepOwned(s, t, c);
    } else if pc.Asking? {
      AskingStepOwned(s, t, c);
    } else if pc.Saving? && pc.got.None? {
      ExpiringStepOwned(s, t, c);
    } else if pc.Saving? {
      SavingStepOwned(s, t, c);
    } else if pc.Queued? || pc.Capturing? {
      BrowserStepOwned(s, t, c);
    } else {
      LateStepOwned(s, t, c);
    }
    MoveKeepsOwn(s, Step(s, t, c), t);
  }

  // ----- No stale entry, no replay ------------------------------------------------------------

  predicate PcFresh(s: State, pc: Pc) {
    && (Holding(pc) ==> pc.acc.refresh !in s.log.spent)
    && (Pending(pc) ==> pc.got.value.refresh !in s.log.spent)
  }

  // A stored token was redeemed only if its successor is about to be stored.
  predicate StoredFresh(s: State, id: Id)
    requires id in s.accounts
  {
    s.accounts[id].refresh in s.log.spent ==>
      exists u :: 0 <= u < |s.threads| && Pending(s.threads[u]) && s.threads[u].id == id
  }

  // Every flight was opened with the stored token, every redemption was answered with a successor.
  predicate Clean(s: State) {
    !s.log.staleEntry && !s.log.unrotated && !s.log.lost
  }

  predicate FreshInv(s: State) {
    Clean(s) ==>
      && !s.log.replayed
      && (forall t :: 0 <= t < |s.threads| ==> PcFresh(s, s.threads[t]))
      && (forall id <- s.accounts :: StoredFresh(s, id))
  }

  // A step that redeems nothing and stores no pending token.
  predicate FreshMove(s: State, s': State, t: nat) {
    && t < |s.threads| && |s'.threads| == |s.threads| && s'.threads == s.threads[t := s'.threads[t]]
    && s'.log.spent == s.log.spent && !s'.log.replayed && !Pending(s.threads[t]) && PcFresh(s', s'.threads[t])
    && (forall id <- s'.accounts :: (id in s.accounts && s'.accounts[id].refresh == s.accounts[id].refresh)
                                    || s'.accounts[id].refresh !in s.log.spent)
  }

  lemma MoveKeepsFresh(s: State, s': State, t: nat)
    requires FreshInv(s) && Clean(s) && FreshMove(s, s', t)
    ensures FreshInv(s')
  {
    forall id <- s'.accounts ensures StoredFresh(s', id) {
      if s'.accounts[id].refresh in s'.log.spent {
        assert StoredFresh(s, id);
        var u :| 0 <= u < |s.threads| && Pending(s.threads[u]) && s.threads[u].id == id;
        assert s'.threads[u] == s.threads[u];
      }
    }
  }

  lemma FlyersDiffer(s: State, t: nat, u: nat)
    requires FlightsInv(s) && t < |s.threads| && u < |s.threads|
    requires Flying(s.threads[t]) && Flying(s.threads[u]) && s.threads[t].id == s.threads[u].id
    ensures t == u
  {
    assert FlyerInv(s, t) && FlyerInv(s, u);
  }

  // While the flight of `t` is not about to store a token, the stored one is unspent.
  lemma StoredUnspent(s: State, t: nat)
    requires FlightsInv(s) && FreshInv(s) && Clean(s)
    requires t < |s.threads| && HasAccount(s.threads[t]) && s.threads[t].id in s.accounts
    requires !Pending(s.threads[t]) && (Flying(s.threads[t]) || s.threads[t].id !in s.inflight)
    ensures s.accounts[s.threads[t].id].refresh !in s.log.spent
  {
    var id := s.threads[t].id;
    assert StoredFresh(s, id);
    if u: nat :| u < |s.threads| && Pending(s.threads[u]) && s.threads[u].id == id {
      assert FlyerInv(s, u);
      FlyersDiffer(s, t, u);
    }
  }

  lemma EnterFresh(s: State, t: nat, c: Choice)
    requires FlightsInv(s) && OwnInv(s) && FreshInv(s) && Enabled(s, t) && s.threads[t].Entering?
    requires Clean(Step(s, t, c))
    ensures Clean(s) && FreshMove(s, Step(s, t, c), t)
  {
    assert PcOwned(s, s.threads[t]);
    if s.threads[t].id !in s.inflight {
      StoredUnspent(s, t);
    }
  }

  lemma LapsingFresh(s: State, t: nat, c: Choice)
    requires OwnInv(s) && FreshInv(s) && Enabled(s, t) && s.threads[t].Lapsing?
    requires Clean(Step(s, t, c))
    ensures Clean(s) && FreshMove(s, Step(s, t, c), t)
  {
    assert PcOwned(s, s.threads[t]);
  }

  lemma OutsideStepFresh(s: State, t: nat, c: Choice)
    requires FreshInv(s) && Enabled(s, t)
    requires var pc := s.threads[t]; !Flying(pc) && !pc.Entering? && !pc.Lapsing?
    requires Clean(Step(s, t, c))
    ensures Clean(s) && FreshMove(s, Step(s, t, c), t)
  {
  }

  lemma BeforeSaveFresh(s: State, t: nat, c: Choice)
    requires OwnInv(s) && FreshInv(s) && Enabled(s, t) && Clean(s)
    requires Clean(Step(s, t, c))
    requires var pc := s.threads[t]; pc.Asking? || pc.Queued? || pc.Capturing? || (pc.Redeeming? && !c.answer.Rotated?)
    ensures FreshMove(s, Step(s, t, c), t)
  {
    assert PcFresh(s, s.threads[t]);
  }

  lemma LateStepFresh(s: State, t: nat, c: Choice)
    requires FlightsInv(s) && OwnInv(s) && FreshInv(s) && Enabled(s, t) && Clean(s)
    requires var pc := s.threads[t];
             (pc.Saving? && !Pending(pc)) || pc.Publishing? || pc.Closing? || pc.Leaving?
    ensures FreshMove(s, Step(s, t, c), t)
  {
    assert PcFresh(s, s.threads[t]) && PcOwned(s, s.threads[t]);
    if s.threads[t].Saving? {
      StoredUnspent(s, t);
    }
  }

  lemma RedeemKeepsFresh(s: State, t: nat, c: Choice)
    requires FlightsInv(s) && OwnInv(s) && FreshInv(s) && Enabled(s, t) && Clean(s)
    requires s.threads[t].Redeeming? && c.answer.Rotated?
    ensures FreshInv(Step(s, t, c))
  {
    hide Step;
    StepRedeems(s, t, c);
    var s' := Step(s, t, c);
    var id := s.threads[t].id;
    assert PcFresh(s, s.threads[t]) && PcOwned(s, s.threads[t]);
    forall u | 0 <= u < |s'.threads| ensures PcFresh(s', s'.threads[u]) {
      assert PcFresh(s, s.threads[u]) && PcOwned(s, s.threads[u]);
      if u != t && Flying(s.threads[u]) && s.threads[u].id == id {
        FlyersDiffer(s, t, u);
      }
    }
    forall k <- s'.accounts ensures StoredFresh(s', k) {
      assert StoredFresh(s, k);
      if k == id && Pending(s'.threads[t]) {
      } else if s'.accounts[k].refresh in s'.log.spent {
        var u :| 0 <= u < |s.threads| && Pending(s.threads[u]) && s.threads[u].id == k;
        assert s'.threads[u] == s.threads[u];
      }
    }
  }

  lemma SaveKeepsFresh(s: State, t: nat, c: Choice)
    requires FlightsInv(s) && FreshInv(s) && Enabled(s, t) && Clean(s) && Pending(s.threads[t])
    ensures FreshInv(Step(s, t, c))
  {
    var s' := Step(s, t, c);
    assert PcFresh(s, s.threads[t]);
    forall k <- s'.accounts ensures StoredFresh(s', k) {
      if s'.accounts[k].refresh in s'.log.spent {
        assert StoredFresh(s, k);
        var u :| 0 <= u < |s.threads| && Pending(s.threads[u]) && s.threads[u].id == k;
        assert s'.threads[u] == s.threads[u];
      }
    }
  }

  lemma LeavingGoesOnward(s: State, t: nat, c: Choice)
    requires Enabled(s, t) && (s.threads[t].Publishing? || s.threads[t].Closing? || s.threads[t].Leaving?)
    ensures Onward(s, Step(s, t, c)) && Step(s, t, c).log.staleEntry == s.log.staleEntry
  {
  }

  lemma FlyingGoesOnward(s: State, t: nat, c: Choice)
    requires Enabled(s, t) && Flying(s.threads[t])
    ensures Onward(s, Step(s, t, c)) && Step(s, t, c).log.staleEntry == s.log.staleEntry
  {
    hide Step;
    if Refreshing(s.threads[t]) {
      RefreshingMoves(s, t, c);
    } else {
      LeavingGoesOnward(s, t, c);
    }
  }

  lemma StepGoesOnward(s: State, t: nat, c: Choice)
    requires Enabled(s, t)
    ensures Onward(s, Step(s, t, c))
    ensures Flying(s.threads[t]) ==> Step(s, t, c).log.staleEntry == s.log.staleEntry
  {
    if Flying(s.threads[t]) {
      FlyingGoesOnward(s, t, c);
      hide Step;
    }
  }

  lemma StepKeepsFresh(s: State, t: nat, c: Choice)
    requires FlightsInv(s) && OwnInv(s) && FreshInv(s) && Enabled(s, t)
    ensures FreshInv(Step(s, t, c))
  {
    hide Step;
    StepGoesOnward(s, t, c);
    if Clean(Step(s, t, c)) {
      var pc := s.threads[t];
      if Pending(pc) {
        SaveKeepsFresh(s, t, c);
      } else if pc.Redeeming? && c.answer.Rotated? {
        RedeemKeepsFresh(s, t, c);
      } else {
        if pc.Entering? {
          EnterFresh(s, t, c);
        } else if pc.Lapsing? {
          LapsingFresh(s, t, c);
        } else if !Flying(pc) {
          OutsideStepFresh(s, t, c);
        } else if pc.Asking? || pc.Queued? || pc.Capturing? || pc.Redeeming? {
          BeforeSaveFresh(s, t, c);
        } else {
          LateStepFresh(s, t, c);
        }
        MoveKeepsFresh(s, Step(s, t, c), t);
      }
    }
  }

  lemma {:induction false} RunKeepsFresh(s: State, events: seq<Event>)
    requires Inv(s) && OwnInv(s) && FreshInv(s) && Run(s, events).Some?
    ensures FreshInv(Run(s, events).value)
    decreases |events|
  {
    if events != [] {
      hide Step, FlightsInv, OwnInv, FreshInv;
      var t, c := events[0].thread, events[0].choice;
      StepKeepsInv(s, t, c);
      StepKeepsOwn(s, t, c);
      StepKeepsFresh(s, t, c);
      RunKeepsFresh(Step(s, t, c), events[1..]);
    }
  }

  // Whatever fallbacks are configured: as long as every flight was opened with the stored token and
  // every redemption was answered with a successor, no redeemed token is presented again.
  lemma ReplayHasACause(s0: State, events: seq<Event>)
    requires Init(s0) && Run(s0, events).Some? && Run(s0, events).value.log.replayed
    ensures var s := Run(s0, events).value; s.log.staleEntry || s.log.unrotated || s.log.lost
  {
    RunKeepsFresh(s0, events);
  }

  // ----- Every stale entry is a replay -----------------------------------------------------------

  // A snapshot not yet entered carries the stored token or a spent one; a flyer's is the stored
  // one until its successor is about to be stored.
  predicate SnapshotInv(s: State, pc: Pc) {
    && !pc.Asking? && !pc.Queued? && !pc.Capturing?
    && (HasAccount(pc) && pc.id in s.accounts ==>
          var stored := s.accounts[pc.id].refresh;
          if !Flying(pc) then pc.acc.refresh == stored || pc.acc.refresh in s.log.spent
          else if Pending(pc) then stored in s.log.spent
          else pc.acc.refresh == stored && Holding(pc))
  }

  predicate ReplayAhead(s: State, t: nat) {
    t < |s.threads| && s.threads[t].Redeeming? && s.threads[t].acc.refresh in s.log.spent
  }

  predicate Answered(s: State) {
    !s.log.unrotated && !s.log.lost
  }

  predicate PlainInv(s: State) {
    && !s.hook && !s.cdp
    && (Answered(s) ==>
        if s.log.staleEntry then s.log.replayed || exists t: nat :: t < |s.threads| && ReplayAhead(s, t)
        else forall t :: 0 <= t < |s.threads| ==> SnapshotInv(s, s.threads[t]))
  }

  lemma ReplayComes(s: State, t: nat, c: Choice)
    requires PlainInv(s) && Enabled(s, t) && s.log.staleEntry
    ensures PlainInv(Step(s, t, c))
  {
    var s' := Step(s, t, c);
    StepGoesOnward(s, t, c);
    StepLowersRank(s, t, c);
    if !s.log.replayed && Answered(s') {
      var u: nat :| u < |s.threads| && ReplayAhead(s, u);
      if u != t {
        assert s'.threads[u] == s.threads[u];
        assert ReplayAhead(s', u);
      }
    }
  }

  // A step after which the stored token of every account is the same or its old one is spent.
  predicate PlainMove(s: State, s': State, t: nat) {
    && t < |s.threads| && |s'.threads| == |s.threads| && s'.threads == s.threads[t := s'.threads[t]]
    && s.log.spent <= s'.log.spent && SnapshotInv(s', s'.threads[t])
    && !s'.hook && !s'.cdp && !s'.log.staleEntry
    && (forall id <- s'.accounts ::
          id in s.accounts
          && (s'.accounts[id].refresh == s.accounts[id].refresh
              || (s.accounts[id].refresh in s.log.spent && Flying(s.threads[t]) && s.threads[t].id == id)))
  }

  lemma MoveKeepsPlain(s: State, s': State, t: nat)
    requires FlightsInv(s) && PlainInv(s) && Answered(s) && !s.log.staleEntry && PlainMove(s, s', t)
    ensures PlainInv(s')
  {
    forall u | 0 <= u < |s'.threads| ensures SnapshotInv(s', s'.threads[u]) {
      assert SnapshotInv(s, s.threads[u]);
      if u != t && Flying(s.threads[u]) && Flying(s.threads[t]) && s.threads[u].id == s.threads[t].id {
        FlyersDiffer(s, t, u);
      }
    }
  }

  lemma EntryStaysPlain(s: State, t: nat, c: Choice)
    requires FlightsInv(s) && OwnInv(s) && PlainInv(s) && Answered(s) && !s.log.staleEntry
    requires Enabled(s, t) && !Flying(s.threads[t])
    ensures var s' := Step(s, t, c);
            if s'.log.staleEntry then PlainInv(s') else PlainMove(s, s', t)
  {
    assert SnapshotInv(s, s.threads[t]) && PcOwned(s, s.threads[t]);
    var s' := Step(s, t, c);
    if s'.log.staleEntry {
      assert ReplayAhead(s', t);
    }
  }

  lemma FlightStaysPlain(s: State, t: nat, c: Choice)
    requires FlightsInv(s) && OwnInv(s) && PlainInv(s) && Answered(s) && !s.log.staleEntry
    requires Enabled(s, t) && Flying(s.threads[t])
    requires Answered(Step(s, t, c))
    ensures PlainMove(s, Step(s, t, c), t)
  {
    assert SnapshotInv(s, s.threads[t]) && PcOwned(s, s.threads[t]);
    StepGoesOnward(s, t, c);
  }

  lemma StepKeepsPlain(s: State, t: nat, c: Choice)
    requires FlightsInv(s) && OwnInv(s) && PlainInv(s) && Enabled(s, t)
    ensures PlainInv(Step(s, t, c))
  {
    StepGoesOnward(s, t, c);
    hide Step;
    if s.log.staleEntry {
      ReplayComes(s, t, c);
    } else if Answered(Step(s, t, c)) {
      if Flying(s.threads[t]) {
        FlightStaysPlain(s, t, c);
      } else {
        EntryStaysPlain(s, t, c);
      }
      if !Step(s, t, c).log.staleEntry {
        MoveKeepsPlain(s, Step(s, t, c), t);
      }
    }
  }

  lemma {:induction false} RunKeepsPlain(s: State, events: seq<Event>)
    requires Inv(s) && OwnInv(s) && PlainInv(s) && Run(s, events).Some?
    ensures PlainInv(Run(s, events).value)
    decreases |events|
  {
    if events != [] {
      hide Step, FlightsInv, OwnInv, PlainInv;
      var t, c := events[0].thread, events[0].choice;
      StepKeepsInv(s, t, c);
      StepKeepsOwn(s, t, c);
      StepKeepsPlain(s, t, c);
      RunKeepsPlain(Step(s, t, c), events[1..]);
    }
  }

  // Without fallbacks, and if every redemption was answered with a successor, a finished run
  // presented some redeemed token again exactly when some flight was opened with a snapshot whose
  // token was no longer the stored one: comparing the two under the lock, where the flight is
  // registered, would decide it.
  lemma ReplayExactlyOnStaleEntry(s0: State, events: seq<Event>)
    requires Init(s0) && !s0.hook && !s0.cdp && Run(s0, events).Some?
    requires AllReturned(Run(s0, events).value) && Answered(Run(s0, events).value)
    ensures var s := Run(s0, events).value; s.log.replayed <==> s.log.staleEntry
  {
    RunKeepsPlain(s0, events);
    if Run(s0, events).value.log.replayed {
      ReplayHasACause(s0, events);
    }
  }

  lemma {:induction false} RunsCompose(s: State, first: seq<Event>, rest: seq<Event>)
    requires Run(s, first).Some?
    ensures Run(s, first + rest) == Run(Run(s, first).value, rest)
    decreases |first|
  {
    if first == [] {
      assert first + rest == rest;
    } else {
      hide Step;
      assert (first + rest)[0] == first[0] && (first + rest)[1..] == first[1..] + rest;
      RunsCompose(Step(s, first[0].thread, first[0].choice), first[1..], rest);
    }
  }

  lemma OneStep(s: State, t: nat, c: Choice)
    requires Enabled(s, t)
    ensures Run(s, [Event(t, c)]) == Some(Step(s, t, c))
  {
    hide Step;
    assert Run(Step(s, t, c), []) == Some(Step(s, t, c));
    assert [Event(t, c)][1..] == [];
  }

  lemma TwoSteps(s: State, t: nat, c: Choice, goal: State) returns (events: seq<Event>)
    requires Enabled(s, t) && Enabled(Step(s, t, c), t) && Step(Step(s, t, c), t, c) == goal
    ensures Run(s, events) == Some(goal)
  {
    hide Step, Run, Enabled;
    var e := [Event(t, c)];
    OneStep(s, t, c);
    OneStep(Step(s, t, c), t, c);
    RunsCompose(s, e, e);
    events := e + e;
  }

  lemma ThreeSteps(s: State, t: nat, c: Choice, goal: State) returns (events: seq<Event>)
    requires Enabled(s, t) && Enabled(Step(s, t, c), t) && Enabled(Step(Step(s, t, c), t, c), t)
    requires Step(Step(Step(s, t, c), t, c), t, c) == goal
    ensures Run(s, events) == Some(goal)
  {
    hide Step, Run, Enabled;
    var s1 := Step(s, t, c);
    var s2 := Step(s1, t, c);
    var e := [Event(t, c)];
    OneStep(s, t, c);
    OneStep(s1, t, c);
    OneStep(s2, t, c);
    RunsCompose(s, e, e);
    RunsCompose(s, e + e, e);
    events := e + e + e;
  }

  // Two callers, one account: both have read it, the first has redeemed its token, the first has
  // returned, the second has redeemed the same token.
  const STORED := Account(Token("a", 0), 1, true)
  const RENEWED := Account(Token("a", 2), 3, true)
  const REPLY := Reply(RENEWED, false)
  const GOOD := Choice(Expired, Rotated, true, false, true)

  const BEFORE := State(false, false, [Idle("a"), Idle("a")], map["a" := STORED], map[], [], None, 2, NOTHING)
  const FIRST_READ := BEFORE.(threads := [Entering("a", STORED), Idle("a")])
  const BOTH_READ := BEFORE.(threads := [Entering("a", STORED), Entering("a", STORED)])
  const REDEEMED := State(false, false, [Publishing("a", 0, REPLY), Entering("a", STORED)],
                          map["a" := RENEWED], map["a" := 0], [Flight("a", 0, None, false)], None, 4,
                          Log({Token("a", 0)}, false, false, false, false))
  const LEFT := State(false, false, [Returned(Shared(0, REPLY)), Entering("a", STORED)],
                      map["a" := RENEWED], map[], [Flight("a", 0, Some(REPLY), true)], None, 4,
                      Log({Token("a", 0)}, false, false, false, false))
  const LOST := State(false, false,
                      [Returned(Shared(0, REPLY)), Publishing("a", 1, Reply(STORED.(online := false), true))],
                      map["a" := STORED.(online := false)], map["a" := 1],
                      [Flight("a", 0, Some(REPLY), true), Flight("a", 1, None, false)], None, 4,
                      Log({Token("a", 0)}, true, true, false, false))

  lemma BothRead() returns (events: seq<Event>)
    ensures Run(BEFORE, events) == Some(BOTH_READ)
  {
    var first := TwoSteps(BEFORE, 0, GOOD, FIRST_READ);
    var second := TwoSteps(FIRST_READ, 1, GOOD, BOTH_READ);
    RunsCompose(BEFORE, first, second);
    events := first + second;
  }

  lemma FirstRedeems() returns (events: seq<Event>)
    ensures Run(BOTH_READ, events) == Some(REDEEMED)
  {
    events := ThreeSteps(BOTH_READ, 0, GOOD, REDEEMED);
  }

  lemma FirstLeaves() returns (events: seq<Event>)
    ensures Run(REDEEMED, events) == Some(LEFT)
  {
    events := ThreeSteps(REDEEMED, 0, GOOD, LEFT);
  }

  lemma SecondReplays() returns (events: seq<Event>)
    ensures Run(LEFT, events) == Some(LOST)
  {
    events := ThreeSteps(LEFT, 1, GOOD, LOST);
  }

  // It does happen: the second caller reads the account before the first redeems its token and
  // enters after the first has left. The refused second flight then writes the spent token back
  // over its successor and marks a working account expired.
  lemma LateCallerLosesTheToken() returns (s0: State, good: seq<Event>, bad: seq<Event>)
    ensures Init(s0) && !s0.hook && !s0.cdp
    ensures Run(s0, good).Some? && Run(Run(s0, good).value, bad).Some?
    ensures var s1 := Run(s0, good).value;
            var s2 := Run(s1, bad).value;
            && "a" in s1.accounts && s1.accounts["a"].refresh !in s1.log.spent && s1.accounts["a"].online
            && "a" in s2.accounts && s2.accounts["a"].refresh in s2.log.spent && !s2.accounts["a"].online
            && s2.log.replayed
  {
    hide Run;
    s0 := BEFORE;
    var bothRead := BothRead();
    var redeems := FirstRedeems();
    var leaves := FirstLeaves();
    RunsCompose(s0, bothRead, redeems);
    RunsCompose(s0, bothRead + redeems, leaves);
    good := bothRead + redeems + leaves;
    bad := SecondReplays();
  }
  // ----- Redemptions without a successor ----------------------------------------------------------

  // One caller after the other. The first one's token is redeemed, but no successor comes back: the
  // answer is lost, or holds an access token alone. What is stored then, and what is on record:
  function Left(answer: Answer): Account {
    if answer.Lost? then STORED.(online := false) else Account(Token("a", 0), 2, true)
  }

  function Record(answer: Answer, replayed: bool): Log {
    Log({Token("a", 0)}, false, replayed, answer.Unrotated?, answer.Lost?)
  }

  function Serial(answer: Answer): nat {
    if answer.Lost? then 2 else 3
  }

  function FirstAnswered(answer: Answer, pc: Pc): State {
    State(false, false, [pc, Idle("a")], map["a" := Left(answer)], map["a" := 0], [Flight("a", 0, None, false)], None,
          Serial(answer), Record(answer, false))
  }

  function FirstDone(answer: Answer, pc: Pc): State {
    State(false, false, [Returned(Shared(0, Reply(Left(answer), answer.Lost?))), pc], map["a" := Left(answer)], map[],
          [Flight("a", 0, Some(Reply(Left(answer), answer.Lost?)), true)], None, Serial(answer), Record(answer, false))
  }

  predicate NoSuccessor(answer: Answer) { answer.Lost? || answer.Unrotated? }

  lemma FirstIsAnswered(answer: Answer) returns (events: seq<Event>)
    requires NoSuccessor(answer)
    ensures Run(BEFORE, events) == Some(FirstAnswered(answer, Publishing("a", 0, Reply(Left(answer), answer.Lost?))))
  {
    hide Run;
    var c := Choice(Expired, answer, false, false, true);
    var read := TwoSteps(BEFORE, 0, c, FIRST_READ);
    var answered := ThreeSteps(FIRST_READ, 0, c,
                               FirstAnswered(answer, Publishing("a", 0, Reply(Left(answer), answer.Lost?))));
    RunsCompose(BEFORE, read, answered);
    events := read + answered;
  }

  lemma SecondEnters(answer: Answer) returns (events: seq<Event>)
    requires NoSuccessor(answer)
    ensures Run(FirstAnswered(answer, Publishing("a", 0, Reply(Left(answer), answer.Lost?))), events)
            == Some(FirstDone(answer, Entering("a", Left(answer))))
  {
    hide Run;
    var s := FirstAnswered(answer, Publishing("a", 0, Reply(Left(answer), answer.Lost?)));
    var leaves := ThreeSteps(s, 0, GOOD, FirstDone(answer, Idle("a")));
    var enters := TwoSteps(FirstDone(answer, Idle("a")), 1, GOOD, FirstDone(answer, Entering("a", Left(answer))));
    RunsCompose(s, leaves, enters);
    events := leaves + enters;
  }

  lemma SecondPresentsItAgain(answer: Answer) returns (events: seq<Event>, s: State)
    requires NoSuccessor(answer)
    ensures Run(FirstDone(answer, Entering("a", Left(answer))), events) == Some(s)
    ensures s.log == Record(answer, true)
  {
    var s0 := FirstDone(answer, Entering("a", Left(answer)));
    s := Step(Step(s0, 1, GOOD), 1, GOOD);
    events := TwoSteps(s0, 1, GOOD, s);
  }

  // The other causes are real as well: no flight is opened with a stale snapshot, and still the
  // redeemed token is presented again.
  lemma UnansweredTokenIsReplayed(answer: Answer) returns (s0: State, events: seq<Event>)
    requires NoSuccessor(answer)
    ensures Init(s0) && !s0.hook && !s0.cdp && Run(s0, events).Some?
    ensures var log := Run(s0, events).value.log;
            log.replayed && !log.staleEntry && log.lost == answer.Lost? && log.unrotated == answer.Unrotated?
  {
    hide Run;
    s0 := BEFORE;
    var first := FirstIsAnswered(answer);
    var second := SecondEnters(answer);
    var third, s := SecondPresentsItAgain(answer);
    RunsCompose(s0, first, second);
    RunsCompose(s0, first + second, third);
    events := first + second + third;
  }
}
