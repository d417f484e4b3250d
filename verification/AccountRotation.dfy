/** Which account serves the next request: a request quota per account over the store's round robin.
    The account list is fixed, ids are distinct, and `healthy` holds the ids the account pool calls
    available while the request is served. */
module AccountRotation {
  import opened Options
  import opened Cycle
  import opened Seqs

  const MAX_PROBE := 16

  type Id = string

  datatype Result = Selected(id: Id) | NoAccounts | AllCooling

  // `current` is the empty id when no account is current.
  datatype Rotation = Rotation(accounts: seq<Id>, next: nat, current: Id, count: int)
  {
    ghost predicate Valid() {
      && (forall i, j :: 0 <= i < j < |accounts| ==> accounts[i] != accounts[j])
      && (forall i :: 0 <= i < |accounts| ==> accounts[i] != "")
    }

    function At(i: nat): Id
      requires accounts != []
    {
      accounts[Place(next, i, |accounts|)]
    }

    function Stepped(i: nat): Rotation
      requires accounts != []
    {
      this.(next := Place(next, i, |accounts|))
    }

    predicate CurrentIs(healthy: set<Id>) {
      current != "" && current in accounts && current in healthy
    }
  }

  // ----- The specification ------------------------------------------------------------------------

  function Marks(accounts: seq<Id>, healthy: set<Id>): (marks: seq<bool>)
    ensures |marks| == |accounts|
  {
    seq(|accounts|, i requires 0 <= i < |accounts| => accounts[i] in healthy)
  }

  // Asks the store for the next account until one is healthy.
  function Probe(r: Rotation, healthy: set<Id>, tries: nat): (Rotation, Result) {
    if r.accounts == [] then (r, if tries == 0 then AllCooling else NoAccounts)
    else
      var i := Ahead(Marks(r.accounts, healthy), r.next, 0, tries);
      if i < tries then (r.Stepped(i + 1).(current := r.At(i), count := 1), Selected(r.At(i)))
      else (r.Stepped(tries), AllCooling)
  }

  function Choose(r: Rotation, healthy: set<Id>, auto: bool, limit: int): (Rotation, Result) {
    if auto then
      if limit > 0 then
        if r.CurrentIs(healthy) && r.count < limit then (r.(count := r.count + 1), Selected(r.current))
        else Probe(r, healthy, MAX_PROBE)
      else Probe(r, healthy, MAX_PROBE + 1)
    else if r.CurrentIs(healthy) then (r, Selected(r.current))
    else Probe(r.(current := ""), healthy, MAX_PROBE)
  }

  // ----- The server ---------------------------------------------------------------------------------

  class Server {
    const accounts: seq<Id>
    var nextIdx: nat
    var rotationId: Id
    var rotationCount: int

    constructor (accounts: seq<Id>)
      ensures State() == Rotation(accounts, 0, "", 0)
    {
      this.accounts := accounts;
      nextIdx, rotationId, rotationCount := 0, "", 0;
    }

    function State(): Rotation
      reads this
    {
      Rotation(accounts, nextIdx, rotationId, rotationCount)
    }

    // The store's round robin.
    method Next() returns (acc: Option<Id>)
      modifies this`nextIdx
      ensures accounts == [] ==> acc == None && nextIdx == old(nextIdx)
      ensures accounts != [] ==> acc == Some(old(State()).At(0)) && State() == old(State()).Stepped(1)
    {
      if accounts == [] {
        return None;
      }
      acc := Some(accounts[Place(nextIdx, 0, |accounts|)]);
      nextIdx := Place(nextIdx, 1, |accounts|);
    }

    method NextRotationAccount(healthy: set<Id>, auto: bool, limit: int) returns (r: Result)
      modifies this`nextIdx, this`rotationId, this`rotationCount
      ensures (State(), r) == Choose(old(State()), healthy, auto, limit)
    {
      if auto {
        if limit > 0 {
          if rotationId != "" && rotationCount < limit {
            if rotationId in accounts && rotationId in healthy {
              rotationCount := rotationCount + 1;
              return Selected(rotationId);
            }
          }
          r := ProbeHealthy(healthy);
          return;
        }
        r := RoundRobin(healthy);
        return;
      }
      if rotationId != "" {
        if rotationId in accounts && rotationId in healthy {
          return Selected(rotationId);
        }
        rotationId := "";
      }
      r := ProbeHealthy(healthy);
    }

    method ProbeHealthy(healthy: set<Id>) returns (r: Result)
      modifies this`nextIdx, this`rotationId, this`rotationCount
      ensures (State(), r) == Probe(old(State()), healthy, MAX_PROBE)
    {
      hide Place, Ahead;
      ghost var start := State();
      for i := 0 to MAX_PROBE
        invariant accounts == [] ==> i == 0
        invariant i == 0 ==> State() == start
        invariant i > 0 ==> State() == start.Stepped(i)
        invariant forall k :: 0 <= k < i ==> !Marks(accounts, healthy)[Place(start.next, k, |accounts|)]
      {
        var acc := Next();
        if acc.None? {
          return NoAccounts;
        }
        if i > 0 {
          PlaceOfPlace(start.next, i, 0, |accounts|);
          PlaceOfPlace(start.next, i, 1, |accounts|);
        }
        if acc.value !in healthy {
          continue;
        }
        AheadIs(Marks(accounts, healthy), start.next, 0, MAX_PROBE, i);
        rotationId := acc.value;
        rotationCount := 1;
        return Selected(acc.value);
      }
      AheadIs(Marks(accounts, healthy), start.next, 0, MAX_PROBE, MAX_PROBE);
      return AllCooling;
    }

    method RoundRobin(healthy: set<Id>) returns (r: Result)
      modifies this`nextIdx, this`rotationId, this`rotationCount
      ensures (State(), r) == Probe(old(State()), healthy, MAX_PROBE + 1)
    {
      hide Place, Ahead;
      ghost var start := State();
      var acc := Next();
      if acc.None? {
        return NoAccounts;
      }
      var i := 0;
      while acc.value !in healthy && i < MAX_PROBE
        invariant accounts != [] && acc.Some? && 0 <= i <= MAX_PROBE
        invariant acc.value == start.At(i) && State() == start.Stepped(i + 1)
        invariant forall k :: 0 <= k < i ==> !Marks(accounts, healthy)[Place(start.next, k, |accounts|)]
      {
        PlaceOfPlace(start.next, i + 1, 0, |accounts|);
        PlaceOfPlace(start.next, i + 1, 1, |accounts|);
        acc := Next();
        i := i + 1;
      }
      if acc.value !in healthy {
        AheadIs(Marks(accounts, healthy), start.next, 0, MAX_PROBE + 1, MAX_PROBE + 1);
        return AllCooling;
      }
      AheadIs(Marks(accounts, healthy), start.next, 0, MAX_PROBE + 1, i);
      rotationId := acc.value;
      rotationCount := 1;
      return Selected(acc.value);
    }
  }

  // ----- A healthy account is found -----------------------------------------------------------------

  lemma ChosenIsHealthy(r: Rotation, healthy: set<Id>, auto: bool, limit: int)
    ensures var result := Choose(r, healthy, auto, limit).1;
            && (result.Selected? ==> result.id in r.accounts && result.id in healthy)
            && (result.NoAccounts? <==> r.accounts == [])
  {
  }

  // Sixteen accounts are all within reach of a probe.
  lemma ProbeReachesAll(r: Rotation, healthy: set<Id>, tries: nat, id: Id)
    requires |r.accounts| <= tries && id in r.accounts && id in healthy
    ensures Probe(r, healthy, tries).1.Selected?
  {
    var marks := Marks(r.accounts, healthy);
    var p: nat :| p < |r.accounts| && r.accounts[p] == id;
    var i := PlaceAhead(r.next, p, |r.accounts|);
    assert marks[Place(r.next, i, |r.accounts|)];
  }

  // With at most sixteen accounts a request is served exactly when one of them is healthy.
  lemma ServedExactlyWhenHealthy(r: Rotation, healthy: set<Id>, auto: bool, limit: int)
    requires |r.accounts| <= MAX_PROBE
    ensures Choose(r, healthy, auto, limit).1.Selected? <==> exists id :: id in r.accounts && id in healthy
  {
    ChosenIsHealthy(r, healthy, auto, limit);
    if id :| id in r.accounts && id in healthy {
      ProbeReachesAll(r, healthy, MAX_PROBE, id);
      ProbeReachesAll(r, healthy, MAX_PROBE + 1, id);
      ProbeReachesAll(r.(current := ""), healthy, MAX_PROBE, id);
    }
  }

  // With rotation off the account in use stays while it is healthy.
  lemma PinnedAccountStays(r: Rotation, healthy: set<Id>, limit: int)
    requires r.CurrentIs(healthy)
    ensures Choose(r, healthy, false, limit) == (r, Selected(r.current))
    ensures limit > 0 && r.count < limit ==> Choose(r, healthy, true, limit).1 == Selected(r.current)
  {
  }

  // ----- Who is served ------------------------------------------------------------------------------

  function Serve(r: Rotation, requests: seq<set<Id>>, auto: bool, limit: int): (served: (Rotation, seq<Result>))
    ensures |served.1| == |requests|
    decreases |requests|
  {
    if requests == [] then (r, [])
    else
      var (r1, result) := Choose(r, requests[0], auto, limit);
      var (r2, rest) := Serve(r1, requests[1..], auto, limit);
      (r2, [result] + rest)
  }

  function Times(k: nat, request: set<Id>): (requests: seq<set<Id>>)
    ensures |requests| == k && forall j :: 0 <= j < k ==> requests[j] == request
  {
    if k == 0 then [] else [request] + Times(k - 1, request)
  }

  lemma ProbeIs(r: Rotation, healthy: set<Id>, tries: nat, i: nat)
    requires r.accounts != [] && i < tries && r.At(i) in healthy
    requires forall k :: 0 <= k < i ==> r.At(k) !in healthy
    ensures Probe(r, healthy, tries) == (r.Stepped(i + 1).(current := r.At(i), count := 1), Selected(r.At(i)))
  {
    hide Place, Ahead;
    var marks, n := Marks(r.accounts, healthy), |r.accounts|;
    assert |marks| == n && marks[Place(r.next, i, n)];
    forall k | 0 <= k < i ensures !marks[Place(r.next, k, n)] {
      assert r.At(k) == r.accounts[Place(r.next, k, n)];
    }
    AheadIs(marks, r.next, 0, tries, i);
  }

  // The account a search over `tries` places comes to: the first healthy one at or after the index.
  ghost predicate FirstHealthy(r: Rotation, healthy: set<Id>, tries: nat, i: nat)
    requires r.accounts != []
  {
    i < tries && r.At(i) in healthy && forall k :: 0 <= k < i ==> r.At(k) !in healthy
  }

  // When the account in use does not serve, the first healthy one of the next sixteen does, or of
  // the next seventeen in round robin. It becomes the account in use, and the index is left behind
  // it. When there is none, the request is in vain, and with rotation off no account is in use.
  lemma NextHealthyServes(r: Rotation, healthy: set<Id>, auto: bool, limit: int, i: nat)
    requires r.accounts != [] && (auto && limit > 0 ==> !r.CurrentIs(healthy) || r.count >= limit)
    requires !auto ==> !r.CurrentIs(healthy)
    ensures var (r1, result) := Choose(r, healthy, auto, limit);
            var tries := if auto && limit <= 0 then 17 else 16;
            && (FirstHealthy(r, healthy, tries, i) ==>
                  && result == Selected(r.accounts[Place(r.next, i, |r.accounts|)])
                  && r1 == Rotation(r.accounts, Place(r.next, i + 1, |r.accounts|), result.id, 1))
            && ((forall k :: 0 <= k < tries ==> r.At(k) !in healthy) ==>
                  && result == AllCooling
                  && r1 == Rotation(r.accounts, Place(r.next, tries, |r.accounts|), if auto then r.current else "",
                                    r.count))
  {
    var tries := if auto && limit <= 0 then 17 else 16;
    hide Place, Ahead;
    if FirstHealthy(r, healthy, tries, i) {
      ProbeIs(r, healthy, tries, i);
      ProbeIs(r.(current := ""), healthy, tries, i);
    }
    if forall k :: 0 <= k < tries ==> r.At(k) !in healthy {
      NobodyHealthy(r, healthy, tries);
      NobodyHealthy(r.(current := ""), healthy, tries);
    }
  }

  lemma NobodyHealthy(r: Rotation, healthy: set<Id>, tries: nat)
    requires r.accounts != [] && forall k :: 0 <= k < tries ==> r.At(k) !in healthy
    ensures Probe(r, healthy, tries) == (r.Stepped(tries), AllCooling)
  {
    hide Place, Ahead;
    var marks, n := Marks(r.accounts, healthy), |r.accounts|;
    forall k | 0 <= k < tries ensures !marks[Place(r.next, k, n)] {
      assert r.At(k) == r.accounts[Place(r.next, k, n)];
    }
    AheadIs(marks, r.next, 0, tries, tries);
  }

  // Whoever serves is the account in use from then on.
  lemma ServedIsRemembered(r: Rotation, healthy: set<Id>, auto: bool, limit: int)
    requires r.Valid() && Choose(r, healthy, auto, limit).1.Selected?
    ensures var (r1, result) := Choose(r, healthy, auto, limit);
            r1.current == result.id != "" && r1.accounts == r.accounts && r1.CurrentIs({result.id})
  {
  }

  lemma {:induction false} CurrentServesOn(r: Rotation, row: seq<set<Id>>, limit: int)
    requires r.current != "" && r.current in r.accounts && forall k :: 0 <= k < |row| ==> r.current in row[k]
    ensures Serve(r, row, false, limit).0 == r
    ensures forall k :: 0 <= k < |row| ==> Serve(r, row, false, limit).1[k] == Selected(r.current)
    decreases |row|
  {
    if row != [] {
      CurrentServesOn(r, row[1..], limit);
    }
  }

  // With rotation off, one account serves: whoever served a request also serves all that follow
  // while it is healthy, whether rotation was on or off when it was chosen.
  lemma PinnedAccountServesOn(r: Rotation, healthy: set<Id>, auto: bool, limit: int, id: Id, row: seq<set<Id>>)
    requires r.Valid() && Choose(r, healthy, auto, limit).1 == Selected(id)
    requires forall k :: 0 <= k < |row| ==> id in row[k]
    ensures var r1 := Choose(r, healthy, auto, limit).0;
            forall k :: 0 <= k < |row| ==> Serve(r1, row, false, limit).1[k] == Selected(id)
  {
    ServedIsRemembered(r, healthy, auto, limit);
    CurrentServesOn(Choose(r, healthy, auto, limit).0, row, limit);
  }

  lemma {:induction false} QuotaIsUsedUp(r: Rotation, row: seq<set<Id>>, limit: int)
    requires r.current != "" && r.current in r.accounts && r.count + |row| <= limit
    requires limit > 0 && forall k :: 0 <= k < |row| ==> r.current in row[k]
    ensures Serve(r, row, true, limit).0 == r.(count := r.count + |row|)
    ensures forall k :: 0 <= k < |row| ==> Serve(r, row, true, limit).1[k] == Selected(r.current)
    decreases |row|
  {
    if row != [] {
      hide Probe;
      QuotaIsUsedUp(r.(count := r.count + 1), row[1..], limit);
    }
  }

  // An account that takes over serves its whole quota: the request, and as many more as make up
  // the limit, while it is healthy.
  lemma QuotaIsServed(r: Rotation, healthy: set<Id>, limit: int, id: Id, row: seq<set<Id>>)
    requires r.Valid() && limit > 0 && Choose(r, healthy, true, limit).1 == Selected(id)
    requires id != r.current || r.count >= limit
    requires |row| < limit && forall k :: 0 <= k < |row| ==> id in row[k]
    ensures var r1 := Choose(r, healthy, true, limit).0;
            forall k :: 0 <= k < |row| ==> Serve(r1, row, true, limit).1[k] == Selected(id)
  {
    ServedIsRemembered(r, healthy, true, limit);
    QuotaIsUsedUp(Choose(r, healthy, true, limit).0, row, limit);
  }

  // A search that starts o steps ahead of c.
  lemma ProbeMeets(r: Rotation, healthy: set<Id>, tries: nat, c: nat, o: nat)
    requires r.accounts != [] && |r.accounts| <= tries && o <= |r.accounts|
    requires Place(r.next, 0, |r.accounts|) == Place(c, o, |r.accounts|)
    requires Ahead(Marks(r.accounts, healthy), c, o, |r.accounts|) < |r.accounts|
    ensures var n, i := |r.accounts|, Ahead(Marks(r.accounts, healthy), c, o, |r.accounts|);
            Probe(r, healthy, tries) == (Rotation(r.accounts, Place(c, i + 1, n), r.accounts[Place(c, i, n)], 1),
                                         Selected(r.accounts[Place(c, i, n)]))
  {
    hide Place, Ahead;
    var marks, n := Marks(r.accounts, healthy), |r.accounts|;
    var i := Ahead(marks, c, o, n);
    forall k: nat ensures Place(r.next, k, n) == Place(c, o + k, n) {
      PlaceOfPlace(r.next, 0, k, n);
      PlaceOfPlace(c, o, k, n);
    }
    forall k | 0 <= k < i - o ensures r.At(k) !in healthy {
      assert !marks[Place(c, o + k, n)];
    }
    assert marks[Place(c, i, n)];
    assert r.At(i - o) == r.accounts[Place(c, i, n)];
    ProbeIs(r, healthy, tries, i - o);
  }

  function Served(accounts: seq<Id>, places: seq<nat>): (served: seq<Result>)
    requires forall j :: 0 <= j < |places| ==> places[j] < |accounts|
    ensures |served| == |places|
  {
    seq(|places|, j requires 0 <= j < |places| => Selected(accounts[places[j]]))
  }

  lemma ServeOneMore(r: Rotation, healthy: set<Id>, limit: int, k: nat)
    requires k > 0
    ensures var (r1, result) := Choose(r, healthy, true, limit);
            Serve(r, Times(k, healthy), true, limit).1 == [result] + Serve(r1, Times(k - 1, healthy), true, limit).1
  {
    hide Choose;
    assert Times(k, healthy)[1..] == Times(k - 1, healthy);
  }

  lemma ServedOneMore(accounts: seq<Id>, p: nat, places: seq<nat>, k: nat)
    requires p < |accounts| && 0 < k <= |places| + 1 && forall j :: 0 <= j < |places| ==> places[j] < |accounts|
    ensures Served(accounts, ([p] + places)[..k]) == [Selected(accounts[p])] + Served(accounts, places[..k - 1])
  {
    assert ([p] + places)[..k] == [p] + places[..k - 1];
  }

  lemma {:induction false} RoundRobinMeets(r: Rotation, healthy: set<Id>, limit: int, c: nat, o: nat, k: nat)
    requires 0 < |r.accounts| <= 17 && limit <= 0 && o <= |r.accounts|
    requires Place(r.next, 0, |r.accounts|) == Place(c, o, |r.accounts|)
    requires k <= |Met(Marks(r.accounts, healthy), c, o)|
    ensures Serve(r, Times(k, healthy), true, limit).1
         == Served(r.accounts, Met(Marks(r.accounts, healthy), c, o)[..k])
    decreases k
  {
    if k == 0 {
      assert Times(0, healthy) == [];
    } else {
      hide Place, Ahead, Marks, Met, Serve, Served, Times;
      var marks, n := Marks(r.accounts, healthy), |r.accounts|;
      MetStep(marks, c, o);
      var i := Ahead(marks, c, o, n);
      ProbeMeets(r, healthy, 17, c, o);
      PlaceOfPlace(c, i + 1, 0, n);
      var r1 := Choose(r, healthy, true, limit).0;
      RoundRobinMeets(r1, healthy, limit, c, i + 1, k - 1);
      ServeOneMore(r, healthy, limit, k);
      ServedOneMore(r.accounts, Place(c, i, n), Met(marks, c, i + 1), k);
    }
  }

  lemma DifferentPlacesServe(r: Rotation, healthy: set<Id>, places: seq<nat>)
    requires r.Valid() && Distinct(places)
    requires forall p: nat :: p in places <==> p < |r.accounts| && r.accounts[p] in healthy
    ensures (forall j :: 0 <= j < |places| ==> places[j] < |r.accounts| && r.accounts[places[j]] in healthy)
    ensures var served := Served(r.accounts, places);
            && Distinct(served) && (forall j :: 0 <= j < |served| ==> served[j].Selected? && served[j].id in healthy)
            && forall id :: id in r.accounts && id in healthy ==> Selected(id) in served
  {
    forall j | 0 <= j < |places| ensures places[j] < |r.accounts| && r.accounts[places[j]] in healthy {
      assert places[j] in places;
    }
    var served := Served(r.accounts, places);
    forall id | id in r.accounts && id in healthy ensures Selected(id) in served {
      var p: nat :| p < |r.accounts| && r.accounts[p] == id;
      var j :| 0 <= j < |places| && places[j] == p;
      assert served[j] == Selected(id);
    }
  }

  lemma MarkedPlaces(accounts: seq<Id>, healthy: set<Id>)
    ensures var marks := Marks(accounts, healthy);
            (set p: nat | p < |accounts| && accounts[p] in healthy) == (set p: nat | p < |marks| && marks[p])
    ensures forall p: nat :: p < |accounts| ==> (Marks(accounts, healthy)[p] <==> accounts[p] in healthy)
  {
  }

  // Round robin: with k healthy accounts of at most seventeen, any k requests in succession are
  // served by each of them once.
  lemma RoundRobinServesEachOnce(r: Rotation, healthy: set<Id>, limit: int, k: nat)
    requires r.Valid() && 0 < |r.accounts| <= 17 && limit <= 0
    requires k == |set p: nat | p < |r.accounts| && r.accounts[p] in healthy|
    ensures var served := Serve(r, Times(k, healthy), true, limit).1;
            && Distinct(served) && (forall j :: 0 <= j < k ==> served[j].Selected? && served[j].id in healthy)
            && forall id :: id in r.accounts && id in healthy ==> Selected(id) in served
  {
    hide Rotation.Valid, Distinct, Met, Place, Serve, Marks, Served;
    var marks := Marks(r.accounts, healthy);
    MarkedPlaces(r.accounts, healthy);
    MetIsMarked(marks, r.next);
    var places := Met(marks, r.next, 0);
    RoundRobinMeets(r, healthy, limit, r.next, 0, k);
    assert places[..k] == places;
    DifferentPlacesServe(r, healthy, places);
  }

  // ----- The quota -------------------------------------------------------------------------------------

  // The round robin stands right behind the current account.
  ghost predicate InStep(r: Rotation) {
    r.current == "" ||
    exists c :: 0 <= c < |r.accounts| && Behind(r, c)
  }

  ghost predicate Behind(r: Rotation, c: nat)
    requires c < |r.accounts|
  {
    r.accounts[c] == r.current && Place(r.next, 0, |r.accounts|) == Place(c, 1, |r.accounts|)
  }

  lemma PlaceFrom(r: Rotation, c: nat, i: nat)
    requires c < |r.accounts| && Behind(r, c)
    ensures Place(r.next, i, |r.accounts|) == Place(c, i + 1, |r.accounts|)
  {
    PlaceOfPlace(r.next, 0, i, |r.accounts|);
    PlaceOfPlace(c, 1, i, |r.accounts|);
  }

  lemma AtHome(c: nat, n: nat)
    requires c < n
    ensures Place(c, 0, n) == c
  {
    ModUnique(c, n, 0, c);
  }

  lemma ProbeKeepsStep(r: Rotation, healthy: set<Id>, tries: nat)
    requires r.Valid() && Probe(r, healthy, tries).1.Selected?
    ensures InStep(Probe(r, healthy, tries).0)
    ensures Probe(r, healthy, tries).0.current == Probe(r, healthy, tries).1.id
  {
    var n := |r.accounts|;
    var i := Ahead(Marks(r.accounts, healthy), r.next, 0, tries);
    var r' := Probe(r, healthy, tries).0;
    var c := Place(r.next, i, n);
    PlaceOfPlace(r.next, i, 1, n);
    PlaceOfPlace(r.next, i + 1, 0, n);
    hide Place, Ahead;
    assert Behind(r', c);
  }

  // In step, a probe comes by every other account before it is back at the current one.
  lemma ProbeLeavesCurrent(r: Rotation, healthy: set<Id>, tries: nat, other: Id)
    requires r.Valid() && InStep(r) && r.current != "" && other != r.current
    requires other in r.accounts && other in healthy && Probe(r, healthy, tries).1.Selected?
    ensures Probe(r, healthy, tries).1.id != r.current
  {
    var n := |r.accounts|;
    var c: nat :| c < n && Behind(r, c);
    var i := Ahead(Marks(r.accounts, healthy), r.next, 0, tries);
    var p: nat :| p < n && r.accounts[p] == other;
    var j := PlaceAhead(c, p, n);
    AtHome(c, n);
    PlaceFrom(r, c, j - 1);
    PlaceFrom(r, c, i);
    hide Place, Ahead;
    assert Marks(r.accounts, healthy)[Place(r.next, j - 1, n)];
    assert i + 1 <= j;
    PlacesDiffer(c, 0, i + 1, n);
  }

  function Used(r: Rotation, id: Id, limit: nat): nat {
    if r.current != id || r.count < 0 then 0 else if r.count < limit then r.count else limit
  }

  // A request in the row uses up one more of the quota of its account.
  lemma RequestCounts(r: Rotation, healthy: set<Id>, limit: nat, id: Id, other: Id)
    requires r.Valid() && InStep(r) && r.count >= 0 && limit > 0 && other != id && other in r.accounts
    requires other in healthy && Choose(r, healthy, true, limit).1 == Selected(id)
    ensures var r1 := Choose(r, healthy, true, limit).0;
            && r1.Valid() && InStep(r1) && r1.count >= 0 && r1.accounts == r.accounts
            && Used(r1, id, limit) == Used(r, id, limit) + 1
  {
    if r.CurrentIs(healthy) && r.count < limit {
      var r1 := r.(count := r.count + 1);
      if c: nat :| c < |r.accounts| && Behind(r, c) {
        assert Behind(r1, c);
      }
    } else {
      ProbeKeepsStep(r, healthy, MAX_PROBE);
      if r.current == id {
        ChosenIsHealthy(r, healthy, true, limit);
        ProbeLeavesCurrent(r, healthy, MAX_PROBE, other);
      }
    }
  }

  lemma {:induction false} RowIsBounded(r: Rotation, requests: seq<set<Id>>, limit: nat, id: Id, other: Id)
    requires r.Valid() && InStep(r) && r.count >= 0 && limit > 0 && other != id && other in r.accounts
    requires forall k :: 0 <= k < |requests| ==> other in requests[k]
    requires forall k :: 0 <= k < |requests| ==> Serve(r, requests, true, limit).1[k] == Selected(id)
    ensures |requests| + Used(r, id, limit) <= limit
    decreases |requests|
  {
    if requests != [] {
      hide Choose, InStep;
      var (r1, result) := Choose(r, requests[0], true, limit);
      var served, rest := Serve(r, requests, true, limit).1, Serve(r1, requests[1..], true, limit).1;
      assert result == served[0];
      forall k | 0 <= k < |requests| - 1 ensures rest[k] == Selected(id) {
        assert rest[k] == served[k + 1];
      }
      RequestCounts(r, requests[0], limit, id, other);
      RowIsBounded(r1, requests[1..], limit, id, other);
    }
  }

  // Sixteen steps lead back to where they started.
  predicate ProbeComesRound(n: nat) {
    n > 0 && MAX_PROBE % n == 0
  }

  lemma SixteenOn(p: nat, n: nat)
    requires n > 0
    ensures Place(p, MAX_PROBE, n) == Place(p, 0, n) <==> ProbeComesRound(n)
  {
    WholeTurns(p, MAX_PROBE, n);
    if MAX_PROBE % n != 0 {
      PlacesDiffer(p, 0, MAX_PROBE % n, n);
    }
  }

  // A request that finds nobody moves the round robin sixteen places on. That keeps it in step
  // exactly when sixteen is a number of whole turns.
  lemma FailureKeepsStepExactly(r: Rotation, healthy: set<Id>, limit: nat)
    requires r.Valid() && InStep(r) && r.current != "" && limit > 0
    requires Choose(r, healthy, true, limit).1.AllCooling?
    ensures InStep(Choose(r, healthy, true, limit).0) <==> ProbeComesRound(|r.accounts|)
  {
    var n := |r.accounts|;
    var r1 := Choose(r, healthy, true, limit).0;
    var c: nat :| c < n && Behind(r, c);
    SixteenOn(r.next, n);
    PlaceOfPlace(r.next, MAX_PROBE, 0, n);
    assert r1 == r.Stepped(MAX_PROBE);
    hide Place;
    if ProbeComesRound(n) {
      assert Behind(r1, c);
    }
    if InStep(r1) {
      var d: nat :| d < n && Behind(r1, d);
      assert d == c;
    }
  }

  lemma ChooseKeepsStep(r: Rotation, healthy: set<Id>, limit: nat)
    requires r.Valid() && InStep(r) && r.count >= 0 && limit > 0
    requires Choose(r, healthy, true, limit).1.AllCooling? ==> ProbeComesRound(|r.accounts|)
    ensures var r1 := Choose(r, healthy, true, limit).0;
            InStep(r1) && r1.count >= 0 && r1.accounts == r.accounts
  {
    if r.CurrentIs(healthy) && r.count < limit {
      var c: nat :| c < |r.accounts| && Behind(r, c);
      assert Behind(r.(count := r.count + 1), c);
    } else if Choose(r, healthy, true, limit).1.Selected? {
      ProbeKeepsStep(r, healthy, MAX_PROBE);
    } else if r.accounts != [] && r.current != "" {
      FailureKeepsStepExactly(r, healthy, limit);
    }
  }

  // Nobody was found only if that leads the probe back.
  ghost predicate Harmless(n: nat, results: seq<Result>) {
    n == 0 || ProbeComesRound(n) || forall k :: 0 <= k < |results| ==> results[k].Selected?
  }

  lemma {:induction false} ServingKeepsStep(r: Rotation, requests: seq<set<Id>>, limit: nat)
    requires r.Valid() && InStep(r) && r.count >= 0 && limit > 0
    requires Harmless(|r.accounts|, Serve(r, requests, true, limit).1)
    ensures var r1 := Serve(r, requests, true, limit).0; InStep(r1) && r1.count >= 0 && r1.accounts == r.accounts
    decreases |requests|
  {
    if requests != [] {
      ChosenIsHealthy(r, requests[0], true, limit);
      hide Choose, InStep, ProbeComesRound;
      var (r1, result) := Choose(r, requests[0], true, limit);
      var rest := Serve(r1, requests[1..], true, limit).1;
      HarmlessRest(|r.accounts|, result, rest);
      ChooseKeepsStep(r, requests[0], limit);
      hide Harmless;
      ServingKeepsStep(r1, requests[1..], limit);
    }
  }

  lemma HarmlessRest(n: nat, result: Result, rest: seq<Result>)
    requires Harmless(n, [result] + rest)
    ensures Harmless(n, rest) && (result.AllCooling? ==> n == 0 || ProbeComesRound(n))
  {
    hide ProbeComesRound;
    if n != 0 && !ProbeComesRound(n) {
      assert ([result] + rest)[0].Selected?;
      forall k | 0 <= k < |rest| ensures rest[k].Selected? {
        assert ([result] + rest)[k + 1].Selected?;
      }
    }
  }

  // ----- Rows ----------------------------------------------------------------------------------------

  // A fresh server, before its first request.
  function Fresh(accounts: seq<Id>): Rotation {
    Rotation(accounts, 0, "", 0)
  }

  // After `before`, the requests of `row` are all served by `id` while `other` is healthy.
  ghost predicate IsRow(accounts: seq<Id>, limit: nat, before: seq<set<Id>>, row: seq<set<Id>>, id: Id, other: Id) {
    && other in accounts && other != id
    && (forall k :: 0 <= k < |row| ==> other in row[k])
    && var r := Serve(Fresh(accounts), before, true, limit).0;
       forall k :: 0 <= k < |row| ==> Serve(r, row, true, limit).1[k] == Selected(id)
  }

  // Whatever was served before, no account serves more than the limit in a row while another stays
  // healthy, provided that no request before found everyone cooling down, or that the number of
  // accounts divides sixteen.
  lemma QuotaIsKept(accounts: seq<Id>, before: seq<set<Id>>, row: seq<set<Id>>, limit: nat, id: Id, other: Id)
    requires Fresh(accounts).Valid() && limit > 0
    requires IsRow(accounts, limit, before, row, id, other)
    requires Harmless(|accounts|, Serve(Fresh(accounts), before, true, limit).1)
    ensures |row| <= limit
  {
    ServingKeepsStep(Fresh(accounts), before, limit);
    RowIsBounded(Serve(Fresh(accounts), before, true, limit).0, row, limit, id, other);
  }

  // An account in use has served at least once.
  predicate Counted(r: Rotation) {
    r.count >= 0 && (r.current != "" ==> r.count >= 1)
  }

  lemma {:induction false} ServingCounts(r: Rotation, requests: seq<set<Id>>, limit: nat)
    requires r.Valid() && Counted(r)
    ensures var r1 := Serve(r, requests, true, limit).0; r1.Valid() && Counted(r1) && r1.accounts == r.accounts
    decreases |requests|
  {
    if requests != [] {
      ServingCounts(Choose(r, requests[0], true, limit).0, requests[1..], limit);
    }
  }

  lemma ServeTail(r: Rotation, row: seq<set<Id>>, limit: nat, id: Id, other: Id)
    requires row != [] && (forall k :: 0 <= k < |row| ==> other in row[k])
    requires forall k :: 0 <= k < |row| ==> Serve(r, row, true, limit).1[k] == Selected(id)
    ensures Choose(r, row[0], true, limit).1 == Selected(id) && other in row[0]
    ensures var r1, rest := Choose(r, row[0], true, limit).0, row[1..];
            forall k :: 0 <= k < |rest| ==> other in rest[k] && Serve(r1, rest, true, limit).1[k] == Selected(id)
  {
    hide Choose;
    var r1, rest := Choose(r, row[0], true, limit).0, row[1..];
    var served := Serve(r, row, true, limit).1;
    assert served[0] == Choose(r, row[0], true, limit).1;
    forall k | 0 <= k < |rest| ensures other in rest[k] && Serve(r1, rest, true, limit).1[k] == Selected(id) {
      assert served[k + 1] == Serve(r1, rest, true, limit).1[k];
    }
  }

  // Out of step a row still ends: what is left of the quota, and at most one quota more.
  lemma {:induction false} RowEnds(r: Rotation, row: seq<set<Id>>, limit: nat, id: Id, other: Id)
    requires r.Valid() && Counted(r) && limit > 0 && other != id && other in r.accounts
    requires forall k :: 0 <= k < |row| ==> other in row[k]
    requires forall k :: 0 <= k < |row| ==> Serve(r, row, true, limit).1[k] == Selected(id)
    ensures |row| + Used(r, id, limit) <= if r.current == id && id != "" then 2 * limit else limit
    decreases |row|
  {
    if row != [] {
      ServeTail(r, row, limit, id, other);
      ChosenIsHealthy(r, row[0], true, limit);
      hide Serve;
      var r1 := Choose(r, row[0], true, limit).0;
      if r.CurrentIs(row[0]) && r.count < limit {
        RowEnds(r1, row[1..], limit, id, other);
      } else {
        ProbeKeepsStep(r, row[0], MAX_PROBE);
        RowIsBounded(r1, row[1..], limit, id, other);
      }
    }
  }

  // In every run, vain requests or not, a row is at most one request short of two quotas.
  lemma RowIsBelowTwoQuotas(accounts: seq<Id>, before: seq<set<Id>>, row: seq<set<Id>>, limit: nat, id: Id, other: Id)
    requires Fresh(accounts).Valid() && limit > 0
    requires IsRow(accounts, limit, before, row, id, other)
    ensures |row| <= 2 * limit - 1
  {
    ServingCounts(Fresh(accounts), before, limit);
    RowEnds(Serve(Fresh(accounts), before, true, limit).0, row, limit, id, other);
  }

  // ----- The longest rows ------------------------------------------------------------------------------

  lemma {:induction false} ServeBoth(r: Rotation, first: seq<set<Id>>, second: seq<set<Id>>, limit: int)
    ensures var (r1, a) := Serve(r, first, true, limit);
            var (r2, b) := Serve(r1, second, true, limit);
            Serve(r, first + second, true, limit) == (r2, a + b)
    decreases |first|
  {
    hide Choose;
    if first == [] {
      ConcatEmpty(second);
      ConcatEmpty(Serve(r, second, true, limit).1);
    } else {
      var (r1, result) := Choose(r, first[0], true, limit);
      TailOfConcat(first, second);
      ServeBoth(r1, first[1..], second, limit);
      var (r2, rest) := Serve(r1, first[1..], true, limit);
      ConcatAssociates([result], rest, Serve(r2, second, true, limit).1);
    }
  }

  // The first account is in use and has served `count` requests.
  function First(accounts: seq<Id>, next: nat, count: int): Rotation
    requires accounts != []
  {
    Rotation(accounts, next, accounts[0], count)
  }

  lemma OneAhead(n: nat)
    requires n >= 2
    ensures Place(0, 1, n) == 1
  {
    ModUnique(1, n, 0, 1);
  }

  lemma FirstIsServed(accounts: seq<Id>, limit: nat)
    requires |accounts| >= 2 && limit > 0
    ensures Serve(Fresh(accounts), [{accounts[0]}], true, limit).0 == First(accounts, 1, 1)
  {
    hide Place, Probe;
    var r := Fresh(accounts);
    AtHome(0, |accounts|);
    AtHome(1, |accounts|);
    PlaceOfPlace(0, 0, 1, |accounts|);
    OneAhead(|accounts|);
    ProbeIs(r, {accounts[0]}, MAX_PROBE, 0);
  }

  lemma VainRequestSteps(accounts: seq<Id>, next: nat, limit: nat)
    requires accounts != [] && limit > 0
    ensures Choose(First(accounts, next, 1), {}, true, limit)
            == (First(accounts, Place(next, MAX_PROBE, |accounts|), 1), AllCooling)
  {
    hide Place, Ahead;
    AheadIs(Marks(accounts, {}), next, 0, MAX_PROBE, MAX_PROBE);
  }

  lemma {:induction false} VainRequestsStep(accounts: seq<Id>, next: nat, f: nat, limit: nat)
    requires next < |accounts| && limit > 0
    ensures Serve(First(accounts, next, 1), Times(f, {}), true, limit).0
            == First(accounts, Place(next, MAX_PROBE * f, |accounts|), 1)
    decreases f
  {
    hide Choose, Place;
    var n := |accounts|;
    if f == 0 {
      AtHome(next, n);
    } else {
      VainRequestSteps(accounts, next, limit);
      VainRequestsStep(accounts, Place(next, MAX_PROBE, n), f - 1, limit);
      PlaceOfPlace(next, MAX_PROBE, MAX_PROBE * (f - 1), n);
    }
  }

  // Where the vain requests have to leave the round robin: the probe from there comes to the first
  // account within its reach and not by the second.
  predicate LeadsToFirst(n: nat, place: nat) {
    place == 0 || (2 <= place < n && n - place < MAX_PROBE)
  }

  lemma PlacesToFirst(place: nat, n: nat, i: nat)
    requires n >= 3 && LeadsToFirst(n, place) && i == if place == 0 then 0 else n - place
    ensures Place(place, i, n) == 0 && Place(place, i + 1, n) == 1
    ensures forall k :: 0 <= k < i ==> Place(place, k, n) >= 2
  {
    if place == 0 {
      AtHome(0, n);
      OneAhead(n);
    } else {
      ModUnique(n, n, 1, 0);
      ModUnique(n + 1, n, 1, 1);
      forall k | 0 <= k < i ensures Place(place, k, n) >= 2 {
        ModUnique(place + k, n, 0, place + k);
      }
    }
  }

  lemma ProbeReturns(accounts: seq<Id>, place: nat, limit: nat)
    requires Fresh(accounts).Valid() && |accounts| >= 3 && limit > 0 && LeadsToFirst(|accounts|, place)
    ensures Choose(First(accounts, place, limit), {accounts[0], accounts[1]}, true, limit)
            == (First(accounts, 1, 1), Selected(accounts[0]))
  {
    var n, r := |accounts|, First(accounts, place, limit);
    var i := if place == 0 then 0 else n - place;
    PlacesToFirst(place, n, i);
    hide Place, Probe;
    ProbeIs(r, {accounts[0], accounts[1]}, MAX_PROBE, i);
  }

  // How many vain requests lead there: one, or as many as it takes to come close to the end.
  function VainRequests(n: nat): nat {
    if n <= MAX_PROBE then 1 else (n - 1) / MAX_PROBE
  }

  lemma SeventeenIsPrime(n: nat, q: nat)
    requires 2 <= n <= 16
    ensures n * q != 17
  {
    if q < 9 {
      assert q == 0 || q == 1 || q == 2 || q == 3 || q == 4 || q == 5 || q == 6 || q == 7 || q == 8;
    } else {
      assert n * q >= 2 * q;
    }
  }

  lemma SmallRings(n: nat)
    requires 0 < n <= MAX_PROBE && MAX_PROBE % n != 0
    ensures n >= 3 && 2 <= Place(1, MAX_PROBE, n)
  {
    var q, m := MAX_PROBE / n, MAX_PROBE % n;
    SeventeenIsPrime(n, q + 1);
    assert n * (q + 1) == n * q + n == MAX_PROBE - m + n;
    AddMod(MAX_PROBE, 1, n);
    ModUnique(m + 1, n, 0, m + 1);
  }

  lemma VainRequestsLead(n: nat)
    requires n > 0 && !ProbeComesRound(n)
    ensures n >= 3 && LeadsToFirst(n, Place(1, MAX_PROBE * VainRequests(n), n))
  {
    var f := VainRequests(n);
    if n <= MAX_PROBE {
      SmallRings(n);
    } else {
      var place := 1 + MAX_PROBE * f;
      if place == n {
        ModUnique(place, n, 1, 0);
      } else {
        ModUnique(place, n, 0, place);
      }
    }
  }

  lemma DoubleRow(accounts: seq<Id>, place: nat, limit: nat, both: set<Id>, row: seq<set<Id>>)
    requires Fresh(accounts).Valid() && |accounts| >= 3 && limit > 0 && LeadsToFirst(|accounts|, place)
    requires both == {accounts[0], accounts[1]}
    requires row == Times(limit - 1, both) + ([both] + Times(limit - 1, both))
    ensures forall k :: 0 <= k < |row| ==>
              Serve(First(accounts, place, 1), row, true, limit).1[k] == Selected(accounts[0])
  {
    hide Choose, Place;
    QuotaIsUsedUp(First(accounts, place, 1), Times(limit - 1, both), limit);
    ProbeReturns(accounts, place, limit);
    QuotaIsUsedUp(First(accounts, 1, 1), Times(limit - 1, both), limit);
    ServeBoth(First(accounts, place, limit), [both], Times(limit - 1, both), limit);
    ServeBoth(First(accounts, place, 1), Times(limit - 1, both), [both] + Times(limit - 1, both), limit);
    hide Serve;
    var served := Serve(First(accounts, place, 1), row, true, limit).1;
    var first := Serve(First(accounts, place, 1), Times(limit - 1, both), true, limit).1;
    var second := Serve(First(accounts, 1, 1), Times(limit - 1, both), true, limit).1;
    assert served == first + ([Selected(accounts[0])] + second);
  }

  // Whenever the number of accounts does not divide sixteen, and for every limit, there is a run
  // with the longest row the bound allows: one request is served, some are in vain, and then the
  // first account serves one request less than two quotas while the second is healthy.
  lemma VainRequestsDoubleTheRow(accounts: seq<Id>, limit: nat)
      returns (before: seq<set<Id>>, row: seq<set<Id>>)
    requires Fresh(accounts).Valid() && accounts != [] && limit > 0 && !ProbeComesRound(|accounts|)
    ensures |accounts| >= 3 && IsRow(accounts, limit, before, row, accounts[0], accounts[1])
    ensures |row| == 2 * limit - 1
    ensures before == [{accounts[0]}] + Times(VainRequests(|accounts|), {})
  {
    hide Serve, Place, ProbeComesRound, VainRequests, LeadsToFirst;
    var n, f := |accounts|, VainRequests(|accounts|);
    VainRequestsLead(n);
    var both := {accounts[0], accounts[1]};
    var place := Place(1, MAX_PROBE * f, n);
    before := [{accounts[0]}] + Times(f, {});
    row := Times(limit - 1, both) + ([both] + Times(limit - 1, both));
    FirstIsServed(accounts, limit);
    VainRequestsStep(accounts, 1, f, limit);
    ServeBoth(Fresh(accounts), [{accounts[0]}], Times(f, {}), limit);
    DoubleRow(accounts, place, limit, both, row);
    assert Serve(Fresh(accounts), before, true, limit).0 == First(accounts, place, 1);
    assert Fresh(accounts).accounts[0] != Fresh(accounts).accounts[1];
    forall k | 0 <= k < |row| ensures accounts[1] in row[k] {
      assert row[k] == both;
    }
  }

  // ----- Exactly when the quota is kept -------------------------------------------------------------------

  ghost predicate QuotaKept(accounts: seq<Id>, limit: nat) {
    forall before: seq<set<Id>>, row: seq<set<Id>>, id: Id, other: Id ::
      IsRow(accounts, limit, before, row, id, other) ==> |row| <= limit
  }

  // The quota is kept in all runs if and only if it is one, or the number of accounts divides
  // sixteen.
  lemma QuotaKeptExactly(accounts: seq<Id>, limit: nat)
    requires Fresh(accounts).Valid() && accounts != [] && limit > 0
    ensures QuotaKept(accounts, limit) <==> limit == 1 || ProbeComesRound(|accounts|)
  {
    hide IsRow, ProbeComesRound;
    if limit == 1 || ProbeComesRound(|accounts|) {
      forall before: seq<set<Id>>, row: seq<set<Id>>, id: Id, other: Id | IsRow(accounts, limit, before, row, id, other)
        ensures |row| <= limit
      {
        if limit == 1 {
          RowIsBelowTwoQuotas(accounts, before, row, limit, id, other);
        } else {
          QuotaIsKept(accounts, before, row, limit, id, other);
        }
      }
    } else {
      var before, row := VainRequestsDoubleTheRow(accounts, limit);
    }
  }
}
