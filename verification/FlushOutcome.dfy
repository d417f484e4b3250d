/** What a flush of the web administration stores does: decided by the flag when it looks and by how
    its file operations go. */
module FlushOutcome {
  import opened Options
  import opened WriteBehind

  // ----- One flush -------------------------------------------------------------------------------

  // What a flush has come by: the flag at its look, and whether encoding, writing or renaming
  // failed.
  datatype Seen = Seen(flag: Option<bool>, failed: bool)

  const NOTHING := Seen(None, false)

  function Watch(s: State, e: Event, t: nat, seen: Seen): Seen
    requires e.thread < |s.threads|
  {
    var pc := s.threads[e.thread];
    if e.thread != t then seen
    else if pc.Clearing? then seen.(flag := Some(s.dirty))
    else if pc.Snapping? || pc.Writing? || pc.Renaming? then seen.(failed := seen.failed || !e.ok)
    else seen
  }

  function Watched(s: State, events: seq<Event>, t: nat, seen: Seen): Seen
    requires Run(s, events).Some?
    decreases |events|
  {
    if events == [] then seen
    else Watched(Step(s, events[0].thread, events[0].ok), events[1..], t, Watch(s, events[0], t, seen))
  }

  predicate GoesOn(blocking: bool, seen: Seen) {
    seen.flag.Some? && (blocking || seen.flag.value)
  }

  // Where the flush stands is what it has come by.
  predicate StandsFor(pc: Pc, blocking: bool, seen: Seen) {
    match pc
    case Begin(b) => b == blocking && seen == NOTHING
    case Clearing(b, _) => b == blocking && seen == NOTHING
    case Turn(_) | Copying(_) | Snapping(_) | Writing(_, _, _) | Renaming(_, _, _) =>
      GoesOn(blocking, seen) && !seen.failed
    case Failing(_) | Redirtying(_) => GoesOn(blocking, seen) && seen.failed
    case Finishing(_, ok) => GoesOn(blocking, seen) && ok == !seen.failed
    case Done(Flushed(_, ok)) => GoesOn(blocking, seen) && ok == !seen.failed
    case Done(Skipped) => !blocking && seen.flag == Some(false)
    case _ => false
  }

  lemma LookIsFollowed(s: State, t: nat, ok: bool, blocking: bool, seen: Seen)
    requires Enabled(s, t) && StandsFor(s.threads[t], blocking, seen)
    requires var pc := s.threads[t]; pc.Begin? || pc.Clearing? || pc.Turn? || pc.Copying?
    ensures StandsFor(Step(s, t, ok).threads[t], blocking, Watch(s, Event(t, ok), t, seen))
  {
  }

  lemma FileIsFollowed(s: State, t: nat, ok: bool, blocking: bool, seen: Seen)
    requires Enabled(s, t) && StandsFor(s.threads[t], blocking, seen)
    requires var pc := s.threads[t]; pc.Snapping? || pc.Writing? || pc.Renaming?
    ensures StandsFor(Step(s, t, ok).threads[t], blocking, Watch(s, Event(t, ok), t, seen))
  {
  }

  lemma EndIsFollowed(s: State, t: nat, ok: bool, blocking: bool, seen: Seen)
    requires Enabled(s, t) && StandsFor(s.threads[t], blocking, seen)
    requires var pc := s.threads[t]; pc.Failing? || pc.Redirtying? || pc.Finishing?
    ensures StandsFor(Step(s, t, ok).threads[t], blocking, Watch(s, Event(t, ok), t, seen))
  {
  }

  lemma StepIsFollowed(s: State, e: Event, t: nat, blocking: bool, seen: Seen)
    requires Enabled(s, e.thread) && t < |s.threads| && StandsFor(s.threads[t], blocking, seen)
    ensures var s' := Step(s, e.thread, e.ok);
            t < |s'.threads| && StandsFor(s'.threads[t], blocking, Watch(s, e, t, seen))
  {
    StepChanges(s, e.thread, e.ok);
    hide Step, Watch, Still;
    if e.thread != t {
      NotItsStep(s, e, t, seen);
    } else {
      var pc := s.threads[t];
      if pc.Begin? || pc.Clearing? || pc.Turn? || pc.Copying? {
        LookIsFollowed(s, t, e.ok, blocking, seen);
      } else if pc.Snapping? || pc.Writing? || pc.Renaming? {
        FileIsFollowed(s, t, e.ok, blocking, seen);
      } else {
        EndIsFollowed(s, t, e.ok, blocking, seen);
      }
    }
  }

  lemma NotItsStep(s: State, e: Event, t: nat, seen: Seen)
    requires e.thread < |s.threads| && e.thread != t
    ensures Watch(s, e, t, seen) == seen
  {
  }

  lemma {:induction false} RunIsFollowed(s: State, events: seq<Event>, t: nat, blocking: bool, seen: Seen)
    requires Run(s, events).Some? && t < |s.threads| && StandsFor(s.threads[t], blocking, seen)
    ensures var s' := Run(s, events).value;
            t < |s'.threads| && StandsFor(s'.threads[t], blocking, Watched(s, events, t, seen))
    decreases |events|
  {
    if events != [] {
      hide Step, StandsFor, Watch;
      StepIsFollowed(s, events[0], t, blocking, seen);
      RunIsFollowed(Step(s, events[0].thread, events[0].ok), events[1..], t, blocking, Watch(s, events[0], t, seen));
    }
  }

  // Over every run, a flush that has ended skipped saving exactly when it was a pending one and
  // found the flag clean; otherwise it reports success exactly when no file operation failed.
  lemma FlushIsDecided(s0: State, events: seq<Event>, t: nat)
    requires Init(s0) && Run(s0, events).Some? && t < |s0.threads| && s0.threads[t].Begin?
    ensures var s, seen := Run(s0, events).value, Watched(s0, events, t, NOTHING);
            t < |s.threads| && (s.threads[t].Done? ==>
              var result := s.threads[t].result;
              && (result == Skipped <==> !s0.threads[t].blocking && seen.flag == Some(false))
              && (result != Skipped ==> result.Flushed? && (result.ok <==> !seen.failed)))
  {
    RunIsFollowed(s0, events, t, s0.threads[t].blocking, NOTHING);
  }

  // ----- The flag -----------------------------------------------------------------------------------

  // The last one to touch the flag: a change or a failed save raises it, a look clears it.
  function Raised(s: State, events: seq<Event>, flag: bool): bool
    requires Run(s, events).Some?
    decreases |events|
  {
    if events == [] then flag
    else
      var pc := s.threads[events[0].thread];
      var now := if pc.Dirtying? || pc.Redirtying? then true else if pc.Clearing? then false else flag;
      Raised(Step(s, events[0].thread, events[0].ok), events[1..], now)
  }

  lemma {:induction false} FlagIsTheLastWord(s: State, events: seq<Event>)
    requires Run(s, events).Some?
    ensures Run(s, events).value.dirty == Raised(s, events, s.dirty)
    decreases |events|
  {
    if events != [] {
      FlagIsTheLastWord(Step(s, events[0].thread, events[0].ok), events[1..]);
    }
  }
}
