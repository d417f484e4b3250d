/** The write-behind protocol of the web administration stores: mutators change a map in memory and
    mark it dirty; flushers clear the mark, copy the map and replace the file.

    A step is one lock acquisition, or the rest of a critical section with the release that ends
    it, or one file operation. `ok` decides whether encoding, writing and renaming succeed. */
module WriteBehind {
  import opened Options
  import opened Seqs
  import opened StepMeasure

  // A time of 0 is the zero time.
  datatype Conversation = Conversation(
    id: string, account: string, conversation: string, session: string, created: nat, updated: nat)

  type Data = map<string, Conversation>

  datatype Op = Upsert(value: Conversation) | Delete(id: string)

  predicate Changes(op: Op, data: Data) {
    op.Upsert? || op.id in data
  }

  function Apply(op: Op, data: Data): Data {
    match op
    case Upsert(value) => data[value.id := value]
    case Delete(id) => data - {id}
  }

  datatype Lock = WriteLock | StoreLock | DirtyLock | ListLock

  datatype Result = Mutated | Skipped | Flushed(since: nat, ok: bool)

  datatype Pc =
    // upsert and delete, with markDirty inside the store's critical section
    | Start(op: Op)
    | Mutating(op: Op)
    | Marking
    | Dirtying
    | Listing
    | Registering
    | Unlocking
    // flushPending and flushNowBlocking; `since` is the version when the call looked at the flag
    | Begin(blocking: bool)
    | Clearing(blocking: bool, since: nat)
    | Turn(since: nat)
    | Copying(since: nat)
    | Snapping(since: nat)
    | Writing(since: nat, version: nat, copy: Data)
    | Renaming(since: nat, version: nat, copy: Data)
    | Failing(since: nat)
    | Redirtying(since: nat)
    | Finishing(since: nat, ok: bool)
    | Done(result: Result)

  // `history` lists every content the map has had, the last one being the present. The file holds
  // version `saved`. `registered` counts the entries of the list the background loop walks.
  datatype State = State(
    threads: seq<Pc>, locks: map<Lock, nat>, history: seq<Data>,
    dirty: bool, registered: nat, saved: nat, disk: Data)
  {
    predicate Valid() {
      history != [] && saved < |history|
    }

    function Version(): nat
      requires history != []
    {
      |history| - 1
    }

    function Memory(): Data
      requires history != []
    {
      history[|history| - 1]
    }
  }

  // ----- Steps --------------------------------------------------------------------------------

  predicate Holds(pc: Pc, lock: Lock) {
    match lock
    case WriteLock =>
      pc.Copying? || pc.Snapping? || pc.Writing? || pc.Renaming? || pc.Failing? || pc.Redirtying? || pc.Finishing?
    case StoreLock =>
      pc.Mutating? || pc.Marking? || pc.Dirtying? || pc.Listing? || pc.Registering? || pc.Unlocking? || pc.Snapping?
    case DirtyLock => pc.Dirtying? || pc.Clearing? || pc.Redirtying?
    case ListLock => pc.Registering?
  }

  function Wants(pc: Pc): Option<Lock> {
    match pc
    case Start(_) => Some(StoreLock)
    case Marking => Some(DirtyLock)
    case Listing => Some(ListLock)
    case Begin(_) => Some(DirtyLock)
    case Turn(_) => Some(WriteLock)
    case Copying(_) => Some(StoreLock)
    case Failing(_) => Some(DirtyLock)
    case _ => None
  }

  predicate Enabled(s: State, t: nat) {
    && s.Valid() && t < |s.threads| && !s.threads[t].Done?
    && (Wants(s.threads[t]).Some? ==> Wants(s.threads[t]).value !in s.locks)
  }

  function Acquired(pc: Pc, version: nat): Pc
    requires Wants(pc).Some?
  {
    match pc
    case Start(op) => Mutating(op)
    case Marking => Dirtying
    case Listing => Registering
    case Begin(blocking) => Clearing(blocking, version)
    case Turn(since) => Copying(since)
    case Copying(since) => Snapping(since)
    case Failing(since) => Redirtying(since)
  }

  function Acquire(s: State, t: nat): State
    requires Enabled(s, t) && Wants(s.threads[t]).Some?
  {
    s.(threads := s.threads[t := Acquired(s.threads[t], s.Version())],
       locks := s.locks[Wants(s.threads[t]).value := t])
  }

  // The part of a step that is not a lock acquisition.
  function Act(s: State, t: nat, ok: bool): State
    requires Enabled(s, t) && Wants(s.threads[t]).None?
  {
    match s.threads[t]
    case Mutating(op) =>
      if Changes(op, s.Memory()) then
        s.(threads := s.threads[t := Marking], history := s.history + [Apply(op, s.Memory())])
      else s.(threads := s.threads[t := Unlocking])
    case Dirtying =>
      s.(threads := s.threads[t := Listing], dirty := true, locks := s.locks - {DirtyLock})
    case Registering =>
      s.(threads := s.threads[t := Unlocking], registered := s.registered + 1, locks := s.locks - {ListLock})
    case Unlocking =>
      s.(threads := s.threads[t := Done(Mutated)], locks := s.locks - {StoreLock})
    case Clearing(blocking, since) =>
      if !blocking && !s.dirty then
        s.(threads := s.threads[t := Done(Skipped)], locks := s.locks - {DirtyLock})
      else
        s.(threads := s.threads[t := Turn(since)], dirty := false, locks := s.locks - {DirtyLock})
    case Snapping(since) =>
      var pc := if ok then Writing(since, s.Version(), s.Memory()) else Failing(since);
      s.(threads := s.threads[t := pc], locks := s.locks - {StoreLock})
    case Writing(since, version, copy) =>
      s.(threads := s.threads[t := if ok then Renaming(since, version, copy) else Failing(since)])
    case Renaming(since, version, copy) =>
      if ok then s.(threads := s.threads[t := Finishing(since, true)], saved := version, disk := copy)
      else s.(threads := s.threads[t := Failing(since)])
    case Redirtying(since) =>
      s.(threads := s.threads[t := Finishing(since, false)], dirty := true, locks := s.locks - {DirtyLock})
    case Finishing(since, success) =>
      s.(threads := s.threads[t := Done(Flushed(since, success))], locks := s.locks - {WriteLock})
  }

  function Step(s: State, t: nat, ok: bool): State
    requires Enabled(s, t)
  {
    if Wants(s.threads[t]).Some? then Acquire(s, t) else Act(s, t, ok)
  }

  datatype Event = Event(thread: nat, ok: bool)

  // The map was read from the file; nobody has started.
  predicate Init(s: State) {
    && s.history == [s.disk] && s.saved == 0 && !s.dirty && s.registered == 0 && s.locks == map[]
    && (forall t :: 0 <= t < |s.threads| ==> s.threads[t].Start? || s.threads[t].Begin?)
  }

  function Run(s: State, events: seq<Event>): Option<State>
    decreases |events|
  {
    if events == [] then Some(s)
    else if !Enabled(s, events[0].thread) then None
    else Run(Step(s, events[0].thread, events[0].ok), events[1..])
  }

  // ----- Locks --------------------------------------------------------------------------------

  predicate LockInv(s: State) {
    && (forall t, lock | 0 <= t < |s.threads| ::
          Holds(s.threads[t], lock) <==> lock in s.locks && s.locks[lock] == t)
    && (forall lock <- s.locks :: s.locks[lock] < |s.threads|)
  }

  // A thread may only wait for a lock above every lock it holds.
  function Level(lock: Lock): nat {
    match lock
    case WriteLock => 0
    case StoreLock => 1
    case DirtyLock => 2
    case ListLock => 2
  }

  lemma LocksAreTakenUpwards(pc: Pc, held: Lock)
    requires Wants(pc).Some? && Holds(pc, held)
    ensures Level(held) < Level(Wants(pc).value)
  {
  }

  // What one step does to the locks of the thread that takes it.
  predicate LockMove(s: State, s': State, t: nat) {
    && t < |s.threads| && |s'.threads| == |s.threads| && s'.threads == s.threads[t := s'.threads[t]]
    && (forall lock: Lock ::
          && (Holds(s'.threads[t], lock) <==> lock in s'.locks && s'.locks[lock] == t)
          && (lock in s'.locks && s'.locks[lock] != t <==> lock in s.locks && s.locks[lock] != t)
          && (lock in s'.locks && s'.locks[lock] != t ==> s'.locks[lock] == s.locks[lock]))
  }

  lemma AcquireMovesLocks(s: State, t: nat)
    requires LockInv(s) && Enabled(s, t) && Wants(s.threads[t]).Some?
    ensures LockMove(s, Acquire(s, t), t)
  {
  }

  predicate Mutator(pc: Pc) {
    pc.Start? || pc.Mutating? || pc.Marking? || pc.Dirtying? || pc.Listing? || pc.Registering? || pc.Unlocking?
  }

  lemma MutatorMovesLocks(s: State, t: nat, ok: bool)
    requires LockInv(s) && Enabled(s, t) && Wants(s.threads[t]).None? && Mutator(s.threads[t])
    ensures LockMove(s, Act(s, t, ok), t)
  {
  }

  // The steps of a flush that let go of a lock, and those that keep all of them.
  predicate Releases(pc: Pc) {
    pc.Clearing? || pc.Snapping? || pc.Redirtying? || pc.Finishing?
  }

  lemma ReleaseMovesLocks(s: State, t: nat, ok: bool)
    requires LockInv(s) && Enabled(s, t) && Wants(s.threads[t]).None? && Releases(s.threads[t])
    ensures LockMove(s, Act(s, t, ok), t)
  {
  }

  lemma WritingMovesNoLocks(s: State, t: nat, ok: bool)
    requires LockInv(s) && Enabled(s, t) && (s.threads[t].Writing? || s.threads[t].Renaming?)
    ensures LockMove(s, Act(s, t, ok), t)
  {
  }

  lemma FlusherMovesLocks(s: State, t: nat, ok: bool)
    requires LockInv(s) && Enabled(s, t) && Wants(s.threads[t]).None? && !Mutator(s.threads[t])
    ensures LockMove(s, Act(s, t, ok), t)
  {
    hide Act, LockInv, LockMove;
    if Releases(s.threads[t]) {
      ReleaseMovesLocks(s, t, ok);
    } else {
      WritingMovesNoLocks(s, t, ok);
    }
  }

  lemma StepKeepsLocks(s: State, t: nat, ok: bool)
    requires LockInv(s) && Enabled(s, t)
    ensures LockInv(Step(s, t, ok))
  {
    hide Acquire, Act;
    if Wants(s.threads[t]).Some? {
      AcquireMovesLocks(s, t);
    } else if Mutator(s.threads[t]) {
      MutatorMovesLocks(s, t, ok);
    } else {
      FlusherMovesLocks(s, t, ok);
    }
  }

  // Two threads never hold the same lock.
  lemma LocksExclude(s: State, t: nat, u: nat, lock: Lock)
    requires LockInv(s) && t < |s.threads| && u < |s.threads|
    requires Holds(s.threads[t], lock) && Holds(s.threads[u], lock)
    ensures t == u
  {
    assert lock in s.locks && s.locks[lock] == t;
  }

  // ----- The file and the flag ------------------------------------------------------------------

  predicate Snapshot(pc: Pc) {
    pc.Writing? || pc.Renaming?
  }

  // A copy is what the map was at its version, and the file is not ahead of it.
  predicate CopyInv(s: State, pc: Pc)
    requires s.Valid()
  {
    && (Snapshot(pc) ==> pc.version < |s.history| && pc.copy == s.history[pc.version]
                         && s.saved <= pc.version && pc.since <= pc.version)
    && (pc.Finishing? && pc.ok ==> pc.since <= s.saved)
    && (pc.Done? && pc.result.Flushed? && pc.result.ok ==> pc.result.since <= s.saved)
    && (pc.Clearing? || pc.Turn? || pc.Copying? || pc.Snapping? ==> pc.since < |s.history|)
  }

  // The thread sees to it that what is in memory now gets saved or marked.
  predicate Responsible(s: State, pc: Pc)
    requires s.Valid()
  {
    || pc.Marking? || pc.Dirtying?
    || pc.Turn? || pc.Copying? || pc.Snapping?
    || (Snapshot(pc) && pc.version == s.Version())
    || pc.Failing? || pc.Redirtying?
  }

  predicate SomeoneResponsible(s: State)
    requires s.Valid()
  {
    exists t :: 0 <= t < |s.threads| && Responsible(s, s.threads[t])
  }

  predicate FileInv(s: State) {
    && s.Valid() && s.disk == s.history[s.saved]
    && (forall t :: 0 <= t < |s.threads| ==> CopyInv(s, s.threads[t]))
    && (s.saved == s.Version() || s.dirty || SomeoneResponsible(s))
  }

  lemma AcquireKeepsFile(s: State, t: nat)
    requires FileInv(s) && Enabled(s, t) && Wants(s.threads[t]).Some?
    ensures FileInv(Acquire(s, t))
  {
    var s' := Acquire(s, t);
    if SomeoneResponsible(s) {
      var u :| 0 <= u < |s.threads| && Responsible(s, s.threads[u]);
      assert Responsible(s', s'.threads[u]);
    }
  }

  // A step that leaves memory and file alone.
  predicate FileMove(s: State, s': State, t: nat) {
    && s.Valid() && t < |s.threads| && |s'.threads| == |s.threads|
    && s'.threads == s.threads[t := s'.threads[t]]
    && s'.history == s.history && s'.saved == s.saved && s'.disk == s.disk
    && (s.dirty && !s'.dirty ==> Responsible(s', s'.threads[t]))
    && (Responsible(s, s.threads[t]) ==> Responsible(s', s'.threads[t]) || s'.dirty)
    && CopyInv(s', s'.threads[t])
  }

  lemma MoveKeepsFile(s: State, s': State, t: nat)
    requires FileInv(s) && FileMove(s, s', t)
    ensures FileInv(s')
  {
    forall u | 0 <= u < |s'.threads| ensures CopyInv(s', s'.threads[u]) {
      assert CopyInv(s, s.threads[u]);
    }
    if SomeoneResponsible(s) {
      var u :| 0 <= u < |s.threads| && Responsible(s, s.threads[u]);
      assert Responsible(s', s'.threads[u]) || s'.dirty;
    } else if s.dirty && !s'.dirty {
      assert Responsible(s', s'.threads[t]);
    }
  }

  lemma MutateKeepsFile(s: State, t: nat, ok: bool)
    requires FileInv(s) && Enabled(s, t) && s.threads[t].Mutating? && Changes(s.threads[t].op, s.Memory())
    ensures FileInv(Act(s, t, ok))
  {
    var s' := Act(s, t, ok);
    forall u | 0 <= u < |s'.threads| ensures CopyInv(s', s'.threads[u]) {
      assert CopyInv(s, s.threads[u]);
    }
    assert Responsible(s', s'.threads[t]);
  }

  // The writer has the file to itself: no other copy is older than what it puts there.
  lemma RenameKeepsFile(s: State, t: nat)
    requires LockInv(s) && FileInv(s) && Enabled(s, t) && s.threads[t].Renaming?
    ensures FileInv(Act(s, t, true))
    ensures s.saved <= Act(s, t, true).saved
  {
    var s' := Act(s, t, true);
    assert CopyInv(s, s.threads[t]);
    forall u | 0 <= u < |s'.threads| ensures CopyInv(s', s'.threads[u]) {
      assert CopyInv(s, s.threads[u]);
      if u != t && Snapshot(s.threads[u]) {
        LocksExclude(s, t, u, WriteLock);
      }
    }
    if s'.saved != s'.Version() && SomeoneResponsible(s) {
      var u :| 0 <= u < |s.threads| && Responsible(s, s.threads[u]);
      assert Responsible(s', s'.threads[u]);
    }
  }

  lemma OtherActMovesFile(s: State, t: nat, ok: bool)
    requires FileInv(s) && Enabled(s, t) && Wants(s.threads[t]).None?
    requires s.threads[t].Mutating? ==> !Changes(s.threads[t].op, s.Memory())
    requires s.threads[t].Renaming? ==> !ok
    ensures FileMove(s, Act(s, t, ok), t)
  {
    assert CopyInv(s, s.threads[t]);
  }

  lemma StepKeepsFile(s: State, t: nat, ok: bool)
    requires LockInv(s) && FileInv(s) && Enabled(s, t)
    ensures FileInv(Step(s, t, ok))
  {
    var pc := s.threads[t];
    if Wants(pc).Some? {
      AcquireKeepsFile(s, t);
    } else if pc.Mutating? && Changes(pc.op, s.Memory()) {
      MutateKeepsFile(s, t, ok);
    } else if pc.Renaming? && ok {
      RenameKeepsFile(s, t);
    } else {
      OtherActMovesFile(s, t, ok);
      MoveKeepsFile(s, Act(s, t, ok), t);
    }
  }

  // ----- Registrations ---------------------------------------------------------------------------

  // The mutator has changed the map and not yet put the store on the list.
  predicate Unregistered(pc: Pc) {
    pc.Marking? || pc.Dirtying? || pc.Listing? || pc.Registering?
  }

  predicate Registers(s: State) {
    StoreLock in s.locks && s.locks[StoreLock] < |s.threads| && Unregistered(s.threads[s.locks[StoreLock]])
  }

  predicate ListInv(s: State) {
    s.history != [] && s.Version() == s.registered + if Registers(s) then 1 else 0
  }

  lemma AcquireKeepsList(s: State, t: nat)
    requires LockInv(s) && ListInv(s) && Enabled(s, t) && Wants(s.threads[t]).Some?
    ensures ListInv(Acquire(s, t))
  {
    assert StoreLock in s.locks && s.locks[StoreLock] == t <==> Holds(s.threads[t], StoreLock);
  }

  lemma ActKeepsList(s: State, t: nat, ok: bool)
    requires LockInv(s) && ListInv(s) && Enabled(s, t) && Wants(s.threads[t]).None?
    ensures ListInv(Act(s, t, ok))
  {
    assert StoreLock in s.locks && s.locks[StoreLock] == t <==> Holds(s.threads[t], StoreLock);
  }

  // ----- What every run keeps ----------------------------------------------------------------------

  predicate Inv(s: State) {
    LockInv(s) && FileInv(s) && ListInv(s)
  }

  lemma InitInv(s: State)
    requires Init(s)
    ensures Inv(s)
  {
    assert s.history[0] == s.disk;
    assert LockInv(s);
    assert FileInv(s);
    assert !Registers(s);
  }

  lemma StepKeepsInv(s: State, t: nat, ok: bool)
    requires Inv(s) && Enabled(s, t)
    ensures Inv(Step(s, t, ok))
  {
    hide Act, Acquire, LockInv, FileInv, ListInv;
    StepKeepsLocks(s, t, ok);
    StepKeepsFile(s, t, ok);
    if Wants(s.threads[t]).Some? {
      AcquireKeepsList(s, t);
    } else {
      ActKeepsList(s, t, ok);
    }
  }

  lemma StepMovesForward(s: State, t: nat, ok: bool)
    requires Inv(s) && Enabled(s, t)
    ensures var s' := Step(s, t, ok);
            s.saved <= s'.saved && s.history <= s'.history
  {
    assert CopyInv(s, s.threads[t]);
  }

  // No run takes the file back to an older version, whatever fails and whoever overlaps.
  lemma {:induction false} FileNeverGoesBack(s: State, events: seq<Event>)
    requires Inv(s) && Run(s, events).Some?
    ensures Inv(Run(s, events).value)
    ensures s.saved <= Run(s, events).value.saved && s.history <= Run(s, events).value.history
    decreases |events|
  {
    if events != [] {
      hide Step, Inv;
      StepKeepsInv(s, events[0].thread, events[0].ok);
      StepMovesForward(s, events[0].thread, events[0].ok);
      FileNeverGoesBack(Step(s, events[0].thread, events[0].ok), events[1..]);
    }
  }

  // At every moment of every run the file is some content the map really had; when the flag is
  // clean and no thread is between changing and marking or between clearing and saving, it is
  // the present one.
  lemma CleanMeansSaved(s0: State, events: seq<Event>)
    requires Init(s0) && Run(s0, events).Some?
    ensures var s := Run(s0, events).value;
            && s.Valid() && s.disk == s.history[s.saved]
            && (!s.dirty && !SomeoneResponsible(s) ==> s.disk == s.Memory())
  {
    InitInv(s0);
    FileNeverGoesBack(s0, events);
  }

  // A flush that reports success has put every change made before it looked at the flag into the
  // file, where it stays: `t` has returned after `first`, and `rest` follows.
  lemma FlushedIsDurable(s0: State, first: seq<Event>, rest: seq<Event>, t: nat)
    requires Init(s0) && Run(s0, first).Some? && Run(Run(s0, first).value, rest).Some?
    requires var s1 := Run(s0, first).value;
             && t < |s1.threads| && s1.threads[t].Done?
             && s1.threads[t].result.Flushed? && s1.threads[t].result.ok
    ensures var s1, s2 := Run(s0, first).value, Run(Run(s0, first).value, rest).value;
            && s2.Valid() && s1.threads[t].result.since <= s2.saved && s2.disk == s2.history[s2.saved]
  {
    hide Run;
    var s1 := Run(s0, first).value;
    FileNeverGoesBack(s0, first);
    FileNeverGoesBack(s1, rest);
    assert CopyInv(s1, s1.threads[t]);
  }

  // ----- What the versions hold -----------------------------------------------------------------------

  // One operation took the map from one content to the next: the entry it names and no other.
  ghost predicate OneChange(before: Data, op: Op, after: Data) {
    match op
    case Upsert(value) =>
      && after.Keys == before.Keys + {value.id} && after[value.id] == value
      && forall id :: id in before && id != value.id ==> after[id] == before[id]
    case Delete(gone) =>
      && gone in before && after.Keys == before.Keys - {gone}
      && forall id :: id in before && id != gone ==> after[id] == before[id]
  }

  lemma ApplyIsOneChange(op: Op, data: Data)
    requires Changes(op, data)
    ensures OneChange(data, op, Apply(op, data))
  {
  }

  // The operation of a thread that has not yet come to the map.
  predicate Still(pc: Pc, op: Op) {
    pc == Start(op) || pc == Mutating(op)
  }

  // The thread whose step added a version, or none.
  function Changer(s: State, e: Event): seq<nat>
    requires Enabled(s, e.thread)
  {
    if |Step(s, e.thread, e.ok).history| > |s.history| then [e.thread] else []
  }

  // The threads that added the versions, in order.
  function Changers(s: State, events: seq<Event>): seq<nat>
    requires Run(s, events).Some?
    decreases |events|
  {
    if events == [] then []
    else Changer(s, events[0]) + Changers(Step(s, events[0].thread, events[0].ok), events[1..])
  }

  // What one step does to the operations that are still to come and to the versions.
  lemma StepChanges(s: State, t: nat, ok: bool)
    requires Enabled(s, t)
    ensures var s' := Step(s, t, ok);
            && |s'.threads| == |s.threads|
            && (forall u :: 0 <= u < |s.threads| && u != t ==> s'.threads[u] == s.threads[u])
            && (forall op :: Still(s'.threads[t], op) ==> Still(s.threads[t], op))
            && if s.threads[t].Mutating? && Changes(s.threads[t].op, s.Memory())
               then s'.history == s.history + [Apply(s.threads[t].op, s.Memory())] && s'.threads[t] == Marking
               else s'.history == s.history
  {
  }

  // The i-th of these changes is the operation that its thread has still to do.
  ghost predicate ByThread(s: State, history: seq<Data>, who: seq<nat>, i: nat)
    requires i < |who| && 0 < |s.history| <= |s.history| + i < |history|
  {
    who[i] < |s.threads| &&
    var pc := s.threads[who[i]];
    (pc.Start? || pc.Mutating?) && OneChange(history[|s.history| + i - 1], pc.op, history[|s.history| + i])
  }

  // Every version is the one before with one thread's operation done, each thread does it at most
  // once, and who has returned from a change without it found nothing to delete.
  ghost predicate Explains(s: State, after: State, who: seq<nat>) {
    && s.history != [] && |after.history| == |s.history| + |who| && s.history <= after.history
    && (forall i :: 0 <= i < |who| ==> ByThread(s, after.history, who, i))
    && (forall i, j :: 0 <= i < j < |who| ==> who[i] != who[j])
    && |after.threads| == |s.threads|
    && (forall t, op :: 0 <= t < |s.threads| && Still(s.threads[t], op) && !Still(after.threads[t], op) && t !in who ==>
          op.Delete? && exists k :: |s.history| - 1 <= k < |after.history| && op.id !in after.history[k])
  }
  lemma FirstChange(s: State, e: Event, after: State, who: seq<nat>)
    requires s.history != [] && Enabled(s, e.thread) && s.threads[e.thread].Mutating?
    requires Changes(s.threads[e.thread].op, s.Memory())
    requires Explains(Step(s, e.thread, e.ok), after, who)
    ensures Explains(s, after, [e.thread] + who)
  {
    var s1 := Step(s, e.thread, e.ok);
    StepChanges(s, e.thread, e.ok);
    ApplyIsOneChange(s.threads[e.thread].op, s.Memory());
    hide Step, OneChange, Changes, Apply;
    var all := [e.thread] + who;
    assert after.history[|s.history|] == s1.history[|s.history|];
    assert after.history[|s.history| - 1] == s1.history[|s.history| - 1];
    forall i | 0 <= i < |all| ensures ByThread(s, after.history, all, i) {
      if i > 0 {
        assert ByThread(s1, after.history, who, i - 1);
      }
    }
    forall i, j | 0 <= i < j < |all| ensures all[i] != all[j] {
      assert ByThread(s1, after.history, who, j - 1);
    }
  }

  lemma NoChange(s: State, e: Event, after: State, who: seq<nat>)
    requires s.history != [] && Enabled(s, e.thread)
    requires !(s.threads[e.thread].Mutating? && Changes(s.threads[e.thread].op, s.Memory()))
    requires Explains(Step(s, e.thread, e.ok), after, who)
    ensures Explains(s, after, who)
  {
    var t, s1 := e.thread, Step(s, e.thread, e.ok);
    StepChanges(s, t, e.ok);
    LeavesOnlyInVain(s, t, e.ok);
    hide Step, OneChange, Changes;
    forall i | 0 <= i < |who| ensures ByThread(s, after.history, who, i) {
      assert ByThread(s1, after.history, who, i);
      if who[i] == t {
        assert Still(s1.threads[t], s1.threads[t].op);
      }
    }
    assert after.history[|s.history| - 1] == s.Memory();
    forall u, op | 0 <= u < |s.threads| && Still(s.threads[u], op) && !Still(after.threads[u], op) && u !in who
      ensures op.Delete? && exists k :: |s.history| - 1 <= k < |after.history| && op.id !in after.history[k]
    {
    }
  }

  // A thread leaves its operation undone only when there is nothing to delete.
  lemma LeavesOnlyInVain(s: State, t: nat, ok: bool)
    requires Enabled(s, t)
    requires !(s.threads[t].Mutating? && Changes(s.threads[t].op, s.Memory()))
    ensures forall op :: Still(s.threads[t], op) && !Still(Step(s, t, ok).threads[t], op) ==>
                           op.Delete? && op.id !in s.Memory()
  {
  }

  lemma {:induction false} RunIsExplained(s: State, events: seq<Event>)
    requires s.history != [] && Run(s, events).Some?
    ensures Explains(s, Run(s, events).value, Changers(s, events))
    decreases |events|
  {
    if events != [] {
      var e := events[0];
      var s1 := Step(s, e.thread, e.ok);
      StepChanges(s, e.thread, e.ok);
      hide Step, Explains, Changes, Apply;
      RunIsExplained(s1, events[1..]);
      var after, who := Run(s, events).value, Changers(s1, events[1..]);
      if s.threads[e.thread].Mutating? && Changes(s.threads[e.thread].op, s.Memory()) {
        FirstChange(s, e, after, who);
      } else {
        NoChange(s, e, after, who);
        ConcatEmpty(who);
      }
    }
  }

  predicate Names(op: Op, id: string) {
    match op
    case Upsert(value) => value.id == id
    case Delete(gone) => gone == id
  }

  ghost predicate SameEntry(a: Data, b: Data, id: string) {
    (id in a <==> id in b) && (id in a ==> a[id] == b[id])
  }

  lemma {:induction false} UnnamedStays(s: State, after: State, who: seq<nat>, id: string, k: nat)
    requires Explains(s, after, who) && |s.history| - 1 <= k < |after.history|
    requires forall t :: 0 <= t < |s.threads| && (s.threads[t].Start? || s.threads[t].Mutating?)
                     ==> !Names(s.threads[t].op, id)
    ensures SameEntry(s.Memory(), after.history[k], id)
    decreases k
  {
    if k >= |s.history| {
      UnnamedStays(s, after, who, id, k - 1);
      assert ByThread(s, after.history, who, k - |s.history|);
    } else {
      assert after.history[k] == s.history[k];
    }
  }

  // An entry that no operation names is the same in every version the map ever has, and in the file.
  lemma UntouchedEntryStays(s0: State, events: seq<Event>, id: string, k: nat)
    requires Init(s0) && Run(s0, events).Some? && k < |Run(s0, events).value.history|
    requires forall t :: 0 <= t < |s0.threads| && s0.threads[t].Start? ==> !Names(s0.threads[t].op, id)
    ensures var s := Run(s0, events).value;
            SameEntry(s0.disk, s.history[k], id) && SameEntry(s0.disk, s.disk, id)
  {
    hide Run, Explains, Changers;
    var s := Run(s0, events).value;
    CleanMeansSaved(s0, events);
    RunIsExplained(s0, events);
    UnnamedStays(s0, s, Changers(s0, events), id, k);
    UnnamedStays(s0, s, Changers(s0, events), id, s.saved);
  }

  // ----- No deadlock ---------------------------------------------------------------------------------

  // Following the holders of the locks that are waited for climbs the lock order, so it ends at a
  // thread that can move.
  lemma {:induction false} SomeoneCanMove(s: State, t: nat) returns (u: nat)
    requires Inv(s) && t < |s.threads| && !s.threads[t].Done?
    ensures Enabled(s, u)
    decreases match Wants(s.threads[t]) case None => 0 case Some(lock) => 3 - Level(lock)
  {
    if Enabled(s, t) {
      u := t;
    } else {
      var lock := Wants(s.threads[t]).value;
      var holder := s.locks[lock];
      assert Holds(s.threads[holder], lock);
      if Wants(s.threads[holder]).Some? {
        LocksAreTakenUpwards(s.threads[holder], lock);
      }
      u := SomeoneCanMove(s, holder);
    }
  }

  function Rank(pc: Pc): nat {
    match pc
    case Start(_) => 7
    case Mutating(_) => 6
    case Marking => 5
    case Dirtying => 4
    case Listing => 3
    case Registering => 2
    case Unlocking => 1
    case Begin(_) => 10
    case Clearing(_, _) => 9
    case Turn(_) => 8
    case Copying(_) => 7
    case Snapping(_) => 6
    case Writing(_, _, _) => 5
    case Renaming(_, _, _) => 4
    case Failing(_) => 3
    case Redirtying(_) => 2
    case Finishing(_, _) => 1
    case Done(_) => 0
  }

  lemma ActLowersRank(s: State, t: nat, ok: bool)
    requires Enabled(s, t) && Wants(s.threads[t]).None?
    ensures var s' := Act(s, t, ok);
            && |s'.threads| == |s.threads| && s'.threads == s.threads[t := s'.threads[t]]
            && Rank(s'.threads[t]) < Rank(s.threads[t])
  {
  }

  lemma StepLowersRank(s: State, t: nat, ok: bool)
    requires Enabled(s, t)
    ensures var s' := Step(s, t, ok);
            && |s'.threads| == |s.threads| && s'.threads == s.threads[t := s'.threads[t]]
            && Rank(s'.threads[t]) < Rank(s.threads[t])
  {
    if Wants(s.threads[t]).None? {
      hide Act;
      ActLowersRank(s, t, ok);
    }
  }

  lemma {:induction false} WorkBoundsRun(s: State, events: seq<Event>)
    requires Run(s, events).Some?
    ensures |events| + Work(Rank, Run(s, events).value.threads) <= Work(Rank, s.threads)
    decreases |events|
  {
    if events != [] {
      hide Step;
      var t, ok := events[0].thread, events[0].ok;
      StepLowersRank(s, t, ok);
      WorkAfterMove(Rank, s.threads, t, Step(s, t, ok).threads[t]);
      WorkBoundsRun(Step(s, t, ok), events[1..]);
    }
  }

  predicate AllDone(s: State) {
    forall t :: 0 <= t < |s.threads| ==> s.threads[t].Done?
  }

  // No run deadlocks or goes on for ever. One that has finished has every change in the file or
  // the flag raised, and has put the store on the list once per change.
  lemma EveryRunFinishes(s0: State, events: seq<Event>)
    requires Init(s0) && Run(s0, events).Some?
    ensures |events| <= 10 * |s0.threads|
    ensures var s := Run(s0, events).value;
            && ((forall t: nat | t < |s.threads| :: !Enabled(s, t)) ==> AllDone(s))
            && (AllDone(s) ==> s.Valid() && (s.disk == s.Memory() || s.dirty) && s.registered == s.Version())
  {
    WorkAtMost(Rank, s0.threads, 10);
    WorkBoundsRun(s0, events);
    InitInv(s0);
    FileNeverGoesBack(s0, events);
    var s := Run(s0, events).value;
    if t: nat :| t < |s.threads| && !s.threads[t].Done? {
      var u := SomeoneCanMove(s, t);
    }
  }
}
