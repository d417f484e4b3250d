/** The pool of outbound proxies: cyclic picking that skips entries in cooldown. */
module ProxyPool {
  import opened Cycle
  import opened Seqs

  // Times in milliseconds; 0 is the zero time.
  const SECOND := 1000
  const MAX_BACKOFF := 120 * SECOND

  datatype Entry = Entry(raw: string, failures: nat, cooldown: nat)

  // ----- Picking ----------------------------------------------------------------------------------

  function Ready(entries: seq<Entry>, now: nat): (marks: seq<bool>)
    ensures |marks| == |entries|
  {
    seq(|entries|, i requires 0 <= i < |entries| => now >= entries[i].cooldown)
  }

  // The ready entries, or everyone when all are cooling down.
  function Eligible(entries: seq<Entry>, now: nat): (marks: seq<bool>)
    ensures |marks| == |entries|
  {
    var ready := Ready(entries, now);
    if true in ready then ready else seq(|entries|, _ => true)
  }

  // The first eligible entry at or after `next` on the ring.
  function Picked(entries: seq<Entry>, now: nat, next: nat): (i: nat)
    requires entries != []
    ensures i < |entries|
  {
    Place(next, Ahead(Eligible(entries, now), next, 0, |entries|), |entries|)
  }

  // Successive picks while nothing else changes.
  function Picks(entries: seq<Entry>, now: nat, next: nat, k: nat): seq<nat>
    requires entries != []
    decreases k
  {
    if k == 0 then []
    else
      var i := Picked(entries, now, next);
      [i] + Picks(entries, now, Place(i, 1, |entries|), k - 1)
  }

  lemma SomeoneEligible(entries: seq<Entry>, now: nat) returns (i: nat)
    requires entries != []
    ensures i < |entries| && Eligible(entries, now)[i]
  {
    if true in Ready(entries, now) {
      i :| i < |entries| && Ready(entries, now)[i];
    } else {
      i := 0;
    }
  }

  // The pick after searching up to o steps ahead of c.
  lemma PickOn(entries: seq<Entry>, now: nat, c: nat, o: nat)
    requires entries != [] && o <= |entries|
    requires Ahead(Eligible(entries, now), c, o, |entries|) < |entries|
    ensures var n, i := |entries|, Ahead(Eligible(entries, now), c, o, |entries|);
            && Picked(entries, now, Place(c, o, n)) == Place(c, i, n)
            && Place(Place(c, i, n), 1, n) == Place(c, i + 1, n)
  {
    var n, marks := |entries|, Eligible(entries, now);
    hide Eligible, Place;
    var i := Ahead(marks, c, o, n);
    SearchOn(marks, c, o);
    PlaceOfPlace(c, o, i - o, n);
    PlaceOfPlace(c, i, 1, n);
  }

  lemma TakeCons(p: nat, rest: seq<nat>, k: nat)
    requires 0 < k <= |rest| + 1
    ensures ([p] + rest)[..k] == [p] + rest[..k - 1]
  {
  }

  lemma {:induction false} PicksMeetEligible(entries: seq<Entry>, now: nat, c: nat, o: nat, k: nat)
    requires entries != [] && o <= |entries|
    requires k <= |Met(Eligible(entries, now), c, o)|
    ensures Picks(entries, now, Place(c, o, |entries|), k) == Met(Eligible(entries, now), c, o)[..k]
    decreases k
  {
    if k > 0 {
      hide Eligible, Place, Met, Ahead, Picked;
      var n, marks := |entries|, Eligible(entries, now);
      MetStep(marks, c, o);
      var i := Ahead(marks, c, o, n);
      PickOn(entries, now, c, o);
      PicksMeetEligible(entries, now, c, i + 1, k - 1);
      TakeCons(Place(c, i, n), Met(marks, c, i + 1), k);
    }
  }

  // An entry may be picked when its cooldown is over, or nobody's is.
  ghost predicate MayServe(entries: seq<Entry>, now: nat, i: nat) {
    i < |entries| && (entries[i].cooldown <= now || forall k :: 0 <= k < |entries| ==> now < entries[k].cooldown)
  }

  lemma EligibleExactly(entries: seq<Entry>, now: nat)
    ensures forall i: nat :: i < |entries| ==> (Eligible(entries, now)[i] <==> MayServe(entries, now, i))
  {
    var ready := Ready(entries, now);
    if true in ready {
      var i: nat :| i < |ready| && ready[i];
      assert entries[i].cooldown <= now;
    } else {
      forall k | 0 <= k < |entries| ensures now < entries[k].cooldown {
        assert ready[k] != true;
      }
    }
  }

  // How many steps round the ring place i lies ahead of the index.
  function StepsAhead(next: nat, i: nat, n: nat): nat
    requires i < n
  {
    (i + n - next % n) % n
  }

  lemma StepsToPlace(next: nat, d: nat, n: nat)
    requires d < n
    ensures StepsAhead(next, Place(next, d, n), n) == d
  {
    var r := next % n;
    AddMod(next, d, n);
    if r + d < n {
      ModUnique(r + d, n, 0, r + d);
      ModUnique(d + n, n, 1, d);
    } else {
      ModMinus(r + d, n);
      ModUnique(r + d - n, n, 0, r + d - n);
      ModUnique(d, n, 0, d);
    }
  }

  // The entry picked may be picked, and none that may lies nearer ahead of the index.
  lemma PickIsTheNext(entries: seq<Entry>, now: nat, next: nat)
    requires entries != []
    ensures var n, i := |entries|, Picked(entries, now, next);
            && MayServe(entries, now, i)
            && forall j :: 0 <= j < n && MayServe(entries, now, j) ==> StepsAhead(next, i, n) <= StepsAhead(next, j, n)
  {
    var n, marks := |entries|, Eligible(entries, now);
    EligibleExactly(entries, now);
    var someone := SomeoneEligible(entries, now);
    WholeTurnFinds(marks, next, someone);
    hide MayServe, Eligible, Place, StepsAhead;
    var d := Ahead(marks, next, 0, n);
    StepsToPlace(next, d, n);
    forall j | 0 <= j < n && MayServe(entries, now, j) ensures d <= StepsAhead(next, j, n) {
      var k := PlaceAhead(next, j, n);
      StepsToPlace(next, k, n);
    }
  }

  // With k entries that may be picked, any k successive picks return each of them once, wherever the
  // search starts: also behind the end, where a removal may have left it.
  lemma PicksVisitEachOnce(entries: seq<Entry>, now: nat, next: nat, k: nat)
    requires entries != [] && k == |set i: nat | i < |entries| && MayServe(entries, now, i)|
    ensures var picks := Picks(entries, now, next, k);
            && |picks| == k && Distinct(picks)
            && (forall i: nat :: i in picks <==> i < |entries| && MayServe(entries, now, i))
  {
    EligibleExactly(entries, now);
    assert (set i: nat | i < |entries| && MayServe(entries, now, i))
        == (set i: nat | i < |entries| && Eligible(entries, now)[i]);
    hide MayServe;
    var marks, n := Eligible(entries, now), |entries|;
    MetIsMarked(marks, next);
    assert (set i: nat | i < n && marks[i]) == (set p: nat | p < |marks| && marks[p]);
    var someone := SomeoneEligible(entries, now);
    PicksMeetEligible(entries, now, next, 0, k);
    PicksFromPlace(entries, now, next, k);
    assert Met(marks, next, 0)[..k] == Met(marks, next, 0);
  }

  // Only the place on the ring matters, not how often it went round.
  lemma PicksFromPlace(entries: seq<Entry>, now: nat, next: nat, k: nat)
    requires entries != []
    ensures Picks(entries, now, Place(next, 0, |entries|), k) == Picks(entries, now, next, k)
  {
    if k > 0 {
      var marks, n := Eligible(entries, now), |entries|;
      var someone := SomeoneEligible(entries, now);
      WholeTurnFinds(marks, next, someone);
      SearchOn(marks, next, 0);
      PlaceOfPlace(next, 0, Ahead(marks, next, 0, n), n);
    }
  }

  // A search that ends at a ready entry has found the one to pick.
  lemma ReadyPicked(entries: seq<Entry>, now: nat, c: nat, i: nat)
    requires i < |entries| && Ready(entries, now)[Place(c, i, |entries|)]
    requires forall k :: 0 <= k < i ==> !Ready(entries, now)[Place(c, k, |entries|)]
    ensures Picked(entries, now, c) == Place(c, i, |entries|)
    ensures Place(Picked(entries, now, c), 1, |entries|) == Place(c, i + 1, |entries|)
  {
    AheadIs(Ready(entries, now), c, 0, |entries|, i);
    PlaceOfPlace(c, i, 1, |entries|);
  }

  // A search in vain means that all are cooling down, and then the first place is eligible.
  lemma NobodyReady(entries: seq<Entry>, now: nat, c: nat)
    requires entries != []
    requires forall k :: 0 <= k < |entries| ==> !Ready(entries, now)[Place(c, k, |entries|)]
    ensures true !in Ready(entries, now) && Picked(entries, now, c) == Place(c, 0, |entries|)
    ensures Place(Picked(entries, now, c), 1, |entries|) == Place(c, 1, |entries|)
  {
    PlaceOfPlace(c, 0, 1, |entries|);
    var marks := Ready(entries, now);
    if true in marks {
      var i: nat :| i < |marks| && marks[i];
      var k := PlaceAhead(c, i, |marks|);
      assert false;
    }
  }

  lemma IndexIs(entries: seq<Entry>, raw: string, i: nat)
    requires i <= |entries| && (i < |entries| ==> entries[i].raw == raw)
    requires forall k :: 0 <= k < i ==> entries[k].raw != raw
    ensures IndexOf(entries, raw) == i
  {
  }

  // ----- Failures -----------------------------------------------------------------------------------

  function Backoff(failures: nat): nat {
    if failures * 2 * SECOND < MAX_BACKOFF then failures * 2 * SECOND else MAX_BACKOFF
  }

  function Marked(e: Entry, ok: bool, now: nat): Entry {
    if ok then Entry(e.raw, 0, 0) else Entry(e.raw, e.failures + 1, now + Backoff(e.failures + 1))
  }

  function IndexOf(entries: seq<Entry>, raw: string): (i: nat)
    ensures i <= |entries| && (i < |entries| ==> entries[i].raw == raw)
    ensures forall k :: 0 <= k < i ==> entries[k].raw != raw
  {
    if entries == [] || entries[0].raw == raw then 0 else 1 + IndexOf(entries[1..], raw)
  }

  // A success clears the entry, and a run of f failures after it keeps the proxy away for 2f seconds,
  // at most two minutes, after the last.
  function Failures(e: Entry, times: seq<nat>): Entry {
    if times == [] then e else Marked(Failures(e, times[..|times| - 1]), false, times[|times| - 1])
  }

  lemma {:induction false} CooldownGrows(e: Entry, start: nat, times: seq<nat>)
    requires times != []
    ensures Marked(e, true, start) == Entry(e.raw, 0, 0)
    ensures var after, f := Failures(Marked(e, true, start), times), |times|;
            && after.failures == f && after.raw == e.raw
            && after.cooldown == times[f - 1] + (if f <= 60 then 2000 * f else 120000)
  {
    if |times| > 1 {
      CooldownGrows(e, start, times[..|times| - 1]);
    }
  }

  // ----- The pool ---------------------------------------------------------------------------------------

  class PoolEntry {
    const raw: string
    var failures: nat
    var cooldown: nat

    constructor (raw: string)
      ensures this.raw == raw && failures == 0 && cooldown == 0
    {
      this.raw, failures, cooldown := raw, 0, 0;
    }

    function State(): Entry
      reads this
    {
      Entry(raw, failures, cooldown)
    }
  }

  class Pool {
    var entries: seq<PoolEntry>
    var next: nat

    ghost predicate Valid()
      reads this
    {
      forall i, j :: 0 <= i < j < |entries| ==> entries[i] != entries[j]
    }

    function State(): (s: seq<Entry>)
      reads this, entries
      ensures |s| == |entries| && forall i :: 0 <= i < |s| ==> s[i] == entries[i].State()
    {
      seq(|entries|, i requires 0 <= i < |entries| reads this, entries => entries[i].State())
    }

    constructor ()
      ensures Valid() && entries == [] && next == 0
    {
      entries, next := [], 0;
    }

    // Picks on the ring; the next search starts behind the entry picked.
    method Pick(now: nat) returns (e: PoolEntry?)
      modifies this`next
      ensures entries == [] ==> e == null && next == old(next)
      ensures entries != [] ==>
                var i := Picked(State(), now, old(next));
                e == entries[i] && next == Place(i, 1, |entries|)
    {
      if |entries| == 0 {
        return null;
      }
      hide Place, Picked;
      var n := |entries|;
      ghost var state := State();
      ghost var c := next;
      for i := 0 to n
        invariant next == c
        invariant forall k :: 0 <= k < i ==> !Ready(state, now)[Place(c, k, n)]
      {
        var candidate := entries[Place(next, i, n)];
        if now < candidate.cooldown {
          continue;
        }
        ReadyPicked(state, now, c, i);
        next := Place(next, i + 1, n);
        assert State() == state;
        return candidate;
      }
      NobodyReady(state, now, c);
      e := entries[Place(next, 0, n)];
      next := Place(next, 1, n);
      assert State() == state;
    }

    method Mark(raw: string, ok: bool, now: nat)
      requires Valid()
      modifies entries
      ensures Valid() && entries == old(entries) && next == old(next)
      ensures var i := IndexOf(old(State()), raw);
              State() == if i < |entries| then old(State())[i := Marked(old(State())[i], ok, now)] else old(State())
    {
      hide IndexOf;
      for i := 0 to |entries|
        invariant unchanged(entries)
        invariant forall k :: 0 <= k < i ==> entries[k].raw != raw
      {
        var e := entries[i];
        if e.raw == raw {
          IndexIs(State(), raw, i);
          if ok {
            e.failures := 0;
            e.cooldown := 0;
          } else {
            e.failures := e.failures + 1;
            var d := e.failures * 2 * SECOND;
            if d > MAX_BACKOFF {
              d := MAX_BACKOFF;
            }
            e.cooldown := now + d;
          }
          return;
        }
      }
      IndexIs(State(), raw, |entries|);
    }

    // Removal leaves `next` where it is, which may then be behind the end.
    method Remove(raw: string)
      requires Valid()
      modifies this`entries
      ensures Valid()
      ensures var i := IndexOf(old(State()), raw);
              entries == if i < |old(entries)| then old(entries)[..i] + old(entries)[i + 1..] else old(entries)
    {
      for i := 0 to |entries|
        invariant entries == old(entries)
        invariant forall k :: 0 <= k < i ==> entries[k].raw != raw
      {
        if entries[i].raw == raw {
          IndexIs(State(), raw, i);
          entries := entries[..i] + entries[i + 1..];
          return;
        }
      }
      IndexIs(State(), raw, |entries|);
    }
  }
}
