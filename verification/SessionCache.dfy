/** The session cache of the API server: at most 256 sessions in memory over one file per session.
    A call is modelled together with the locked calls it makes. `wrote` and `removed` say whether
    the file operation it ends with succeeds; the server ignores their failure. */
module SessionCache {
  import opened Options

  const MAX_SIZE := 256

  type Key = string

  datatype SessionState = SessionState(conversation: string, client: string, turns: int)

  const ZERO := SessionState("", "", 0)

  // A file holds a session or something that cannot be decoded.
  datatype File = Readable(st: SessionState) | Garbage

  type Disk = map<Key, File>

  function OnDisk(disk: Disk, key: Key): SessionState {
    if key in disk && disk[key].Readable? then disk[key].st else ZERO
  }

  // ----- The specification of the methods ------------------------------------------------------

  datatype Cache = Cache(mem: map<Key, SessionState>, order: seq<Key>, disk: Disk, enabled: bool)

  function IndexOf(order: seq<Key>, key: Key): (i: int)
    ensures -1 <= i < |order|
    ensures i >= 0 ==> order[i] == key
  {
    if order == [] then -1
    else if order[0] == key then 0
    else var i := IndexOf(order[1..], key); if i < 0 then -1 else i + 1
  }

  function Without(order: seq<Key>, key: Key): seq<Key> {
    var i := IndexOf(order, key);
    if i >= 0 then order[..i] + order[i + 1..] else order
  }

  function DropOldest(c: Cache): Cache
    requires c.order != []
  {
    c.(order := c.order[1..], mem := c.mem - {c.order[0]})
  }

  function Evict(c: Cache): Cache
    decreases |c.order|
  {
    if |c.order| <= MAX_SIZE then c
    else Evict(DropOldest(c))
  }

  function Fetch(c: Cache, key: Key): (Cache, SessionState) {
    if !c.enabled then (c, ZERO)
    else if key in c.mem then (c, c.mem[key])
    else if key in c.disk && c.disk[key].Readable? then
      var st := c.disk[key].st;
      (Evict(c.(mem := c.mem[key := st], order := c.order + [key])), st)
    else (c, ZERO)
  }

  // An empty conversation id stands for the one in memory.
  function Merged(c: Cache, key: Key, st: SessionState): SessionState {
    if st.conversation == "" && key in c.mem then st.(conversation := c.mem[key].conversation) else st
  }

  function Put(c: Cache, key: Key, st: SessionState, wrote: bool): Cache {
    if !c.enabled then c
    else
      var merged := Merged(c, key, st);
      var c1 := Evict(c.(mem := c.mem[key := merged], order := Without(c.order, key) + [key]));
      if wrote then c1.(disk := c1.disk[key := Readable(merged)]) else c1
  }

  function Converse(c: Cache, key: Key, conversation: string, wrote: bool): Cache {
    var (c1, prev) := Fetch(c, key);
    if !c.enabled || prev.conversation == conversation then c1
    else Put(c1, key, prev.(conversation := conversation), wrote)
  }

  function Remove(c: Cache, key: Key, removed: bool): Cache {
    c.(mem := c.mem - {key}, order := Without(c.order, key), disk := if removed then c.disk - {key} else c.disk)
  }

  // ----- The cache -----------------------------------------------------------------------------

  class ContextCache {
    var mem: map<Key, SessionState>
    var order: seq<Key>
    var disk: Disk
    var enabled: bool

    function State(): Cache
      reads this
    {
      Cache(mem, order, disk, enabled)
    }

    constructor (files: Disk)
      ensures State() == Cache(map[], [], files, true) && Consistent(State())
    {
      mem, order, disk, enabled := map[], [], files, true;
    }

    method SetEnabled(on: bool)
      modifies this`enabled
      ensures enabled == on
    {
      enabled := on;
    }

    method EvictOldest()
      modifies this`mem, this`order
      ensures State() == Evict(old(State()))
    {
      while |order| > MAX_SIZE
        invariant Evict(State()) == Evict(old(State()))
      {
        var oldest := order[0];
        order := order[1..];
        mem := mem - {oldest};
      }
    }

    method DropFromOrder(key: Key)
      modifies this`order
      ensures order == Without(old(order), key)
    {
      var i := FindKey(order, key);
      if i >= 0 {
        order := order[..i] + order[i + 1..];
      }
    }

    method GetSession(key: Key) returns (st: SessionState)
      modifies this`mem, this`order
      ensures (State(), st) == Fetch(old(State()), key)
    {
      if !enabled {
        return ZERO;
      }
      if key in mem {
        return mem[key];
      }
      if key !in disk || disk[key].Garbage? {
        return ZERO;
      }
      st := disk[key].st;
      mem := mem[key := st];
      order := order + [key];
      EvictOldest();
    }

    method Get(key: Key) returns (conversation: string)
      modifies this`mem, this`order
      ensures State() == Fetch(old(State()), key).0 && conversation == Fetch(old(State()), key).1.conversation
    {
      var st := GetSession(key);
      return st.conversation;
    }

    method SetSession(key: Key, session: SessionState, wrote: bool)
      modifies this`mem, this`order, this`disk
      ensures State() == Put(old(State()), key, session, wrote)
    {
      hide Without, Evict;
      if !enabled {
        return;
      }
      var st := session;
      if st.conversation == "" {
        if key in mem {
          st := st.(conversation := mem[key].conversation);
        }
      }
      mem := mem[key := st];
      DropFromOrder(key);
      order := order + [key];
      EvictOldest();
      if wrote {
        disk := disk[key := Readable(st)];
      }
    }

    method Set(key: Key, conversation: string, wrote: bool)
      modifies this`mem, this`order, this`disk
      ensures State() == Converse(old(State()), key, conversation, wrote)
    {
      if !enabled {
        return;
      }
      var prev := GetSession(key);
      if prev.conversation == conversation {
        return;
      }
      prev := prev.(conversation := conversation);
      SetSession(key, prev, wrote);
    }

    method Delete(key: Key, removed: bool)
      modifies this`mem, this`order, this`disk
      ensures State() == Remove(old(State()), key, removed)
    {
      hide Without;
      mem := mem - {key};
      DropFromOrder(key);
      if removed {
        disk := disk - {key};
      }
    }
  }

  method FindKey(order: seq<Key>, key: Key) returns (i: int)
    ensures i == IndexOf(order, key)
  {
    var k := 0;
    while k < |order|
      invariant k <= |order|
      invariant IndexOf(order, key) == var j := IndexOf(order[k..], key); if j < 0 then -1 else j + k
    {
      if order[k] == key {
        return k;
      }
      assert order[k..][1..] == order[k + 1..];
      k := k + 1;
    }
    return -1;
  }

  // ----- The calls of the server ------------------------------------------------------------------

  function SessionKey(sid: string): Key {
    "session:" + sid
  }

  datatype Turn = Turn(client: string, isStart: bool)

  function Advance(st: SessionState, newClient: string): SessionState {
    var st1 := if st.client == "" then st.(client := newClient, turns := 0) else st;
    st1.(turns := st1.turns + 1)
  }

  function TurnOf(st: SessionState): Turn {
    Turn(st.client, st.turns == 1)
  }

  function TakeTurn(c: Cache, sid: string, newClient: string): (Cache, Option<Turn>) {
    if sid == "" then (c, None)
    else
      var (c1, st) := Fetch(c, SessionKey(sid));
      var st1 := Advance(st, newClient);
      (Put(c1, SessionKey(sid), st1, true), Some(TurnOf(st1)))
  }

  // An answer with no text, no thinking and no tool calls forgets the session.
  function Answered(c: Cache, sid: string, conversation: string, empty: bool): Cache {
    if sid == "" then c
    else if empty then Remove(c, SessionKey(sid), true)
    else if conversation == "" then c
    else
      var (c1, st) := Fetch(c, SessionKey(sid));
      Put(c1, SessionKey(sid), st.(conversation := conversation), true)
  }

  class ApiServer {
    const ctxCache: ContextCache

    constructor (cache: ContextCache)
      ensures ctxCache == cache
    {
      ctxCache := cache;
    }

    method SessionTurnFor(sid: string, newClient: string) returns (turn: Option<Turn>)
      modifies ctxCache
      ensures (ctxCache.State(), turn) == TakeTurn(old(ctxCache.State()), sid, newClient)
    {
      if sid == "" {
        return None;
      }
      var key := SessionKey(sid);
      var st := ctxCache.GetSession(key);
      if st.client == "" {
        st := st.(client := newClient, turns := 0);
      }
      var isStart := st.turns == 0;
      st := st.(turns := st.turns + 1);
      ctxCache.SetSession(key, st, true);
      return Some(Turn(st.client, isStart));
    }

    method UpdateChatStreamSession(sid: string, conversation: string, empty: bool)
      modifies ctxCache
      ensures ctxCache.State() == Answered(old(ctxCache.State()), sid, conversation, empty)
    {
      if sid == "" {
        return;
      }
      if empty {
        ctxCache.Delete(SessionKey(sid), true);
        return;
      }
      if conversation != "" {
        var st := ctxCache.GetSession(SessionKey(sid));
        st := st.(conversation := conversation);
        ctxCache.SetSession(SessionKey(sid), st, true);
      }
    }
  }

  // ----- What the cache keeps ---------------------------------------------------------------------

  // The order lists the keys in memory, each once.
  ghost predicate Indexed(c: Cache) {
    && (forall i, j :: 0 <= i < j < |c.order| ==> c.order[i] != c.order[j])
    && (forall key :: key in c.order <==> key in c.mem)
  }

  ghost predicate Consistent(c: Cache) {
    && Indexed(c) && |c.order| <= MAX_SIZE
    && (forall key :: key in c.mem ==> key in c.disk && c.disk[key] == Readable(c.mem[key]))
  }

  lemma {:induction false} IndexOfFinds(order: seq<Key>, key: Key)
    ensures IndexOf(order, key) >= 0 <==> key in order
  {
    if order != [] {
      IndexOfFinds(order[1..], key);
      assert order == [order[0]] + order[1..];
    }
  }

  lemma WithoutRemoves(order: seq<Key>, key: Key)
    requires forall i, j :: 0 <= i < j < |order| ==> order[i] != order[j]
    ensures var w := Without(order, key);
            && (forall i, j :: 0 <= i < j < |w| ==> w[i] != w[j])
            && (forall k :: k in w <==> k in order && k != key)
            && |w| == if key in order then |order| - 1 else |order|
  {
    IndexOfFinds(order, key);
    var i := IndexOf(order, key);
    var w := Without(order, key);
    if i >= 0 {
      forall k ensures k in w <==> k in order && k != key {
        if k in order && k != key {
          var j :| 0 <= j < |order| && order[j] == k;
          assert w[if j < i then j else j - 1] == k;
        }
      }
    }
  }

  lemma TailMembers(order: seq<Key>, key: Key)
    requires order != [] && (forall i, j :: 0 <= i < j < |order| ==> order[i] != order[j])
    ensures key in order[1..] <==> key in order && key != order[0]
  {
    if key in order && key != order[0] {
      var i :| 0 <= i < |order| && order[i] == key;
      assert order[1..][i - 1] == key;
    }
  }

  lemma DropKeepsIndex(c: Cache)
    requires Indexed(c) && c.order != []
    ensures Indexed(DropOldest(c))
  {
    var d := DropOldest(c);
    forall key ensures key in d.order <==> key in d.mem {
      TailMembers(c.order, key);
    }
  }

  lemma NewestIsInMemory(c: Cache)
    requires Indexed(c) && c.order != []
    ensures c.order[|c.order| - 1] in c.mem
  {
    assert c.order[|c.order| - 1] in c.order;
  }

  // Eviction only forgets; the newest key stays.
  lemma {:induction false} EvictForgets(c: Cache)
    requires Indexed(c)
    ensures var e := Evict(c);
            && Indexed(e) && |e.order| <= 256 && e.disk == c.disk && e.enabled == c.enabled
            && e.order == (if |c.order| <= MAX_SIZE then c.order else c.order[|c.order| - MAX_SIZE..])
            && (forall key :: key in e.mem ==> key in c.mem && e.mem[key] == c.mem[key])
            && (c.order != [] ==> c.order[|c.order| - 1] in e.mem)
    decreases |c.order|
  {
    hide Indexed;
    if |c.order| > MAX_SIZE {
      DropKeepsIndex(c);
      var d := DropOldest(c);
      EvictForgets(d);
      assert d.order[|d.order| - 1] == c.order[|c.order| - 1];
    } else if c.order != [] {
      NewestIsInMemory(c);
    }
  }

  lemma LoadedIsIndexed(c: Cache, key: Key, st: SessionState)
    requires Indexed(c) && key !in c.mem
    ensures Indexed(c.(mem := c.mem[key := st], order := c.order + [key]))
  {
    assert key !in c.order;
  }

  // A session loaded from its file is remembered as the newest.
  lemma LoadKeepsFiles(c: Cache, key: Key)
    requires Consistent(c) && key !in c.mem && key in c.disk && c.disk[key].Readable?
    ensures var c1 := Evict(c.(mem := c.mem[key := c.disk[key].st], order := c.order + [key]));
            Consistent(c1) && c1.disk == c.disk && c1.enabled == c.enabled && key in c1.mem
  {
    LoadedIsIndexed(c, key, c.disk[key].st);
    hide Evict, Indexed;
    var grown := c.(mem := c.mem[key := c.disk[key].st], order := c.order + [key]);
    assert grown.order[|grown.order| - 1] == key;
    EvictForgets(grown);
  }

  // Reading is not observable: it answers what the file says and leaves every file alone.
  lemma FetchReadsDisk(c: Cache, key: Key)
    requires Consistent(c)
    ensures var (c1, st) := Fetch(c, key);
            && Consistent(c1) && c1.disk == c.disk && c1.enabled == c.enabled
            && st == (if c.enabled then OnDisk(c.disk, key) else ZERO)
            && (c.enabled && st != ZERO ==> key in c1.mem)
  {
    if c.enabled && key !in c.mem && key in c.disk && c.disk[key].Readable? {
      hide Consistent, Evict;
      LoadKeepsFiles(c, key);
    }
  }

  lemma PutIndexes(c: Cache, key: Key, st: SessionState)
    requires Indexed(c)
    ensures Indexed(c.(mem := c.mem[key := st], order := Without(c.order, key) + [key]))
  {
    WithoutRemoves(c.order, key);
    hide Without;
  }

  // After a write the session is in memory and every other entry was there before.
  lemma PutKeepsMemory(c: Cache, key: Key, st: SessionState, wrote: bool)
    requires Indexed(c) && c.enabled
    ensures var c1, merged := Put(c, key, st, wrote), Merged(c, key, st);
            && Indexed(c1) && |c1.order| <= MAX_SIZE && c1.enabled
            && c1.disk == (if wrote then c.disk[key := Readable(merged)] else c.disk)
            && key in c1.mem && c1.mem[key] == merged
            && (forall k :: k in c1.mem && k != key ==> k in c.mem && c1.mem[k] == c.mem[k])
  {
    hide Without, Evict, Merged;
    var merged := Merged(c, key, st);
    var c0 := c.(mem := c.mem[key := merged], order := Without(c.order, key) + [key]);
    PutIndexes(c, key, merged);
    assert c0.order[|c0.order| - 1] == key;
    EvictForgets(c0);
  }

  // A write keeps memory and files together exactly when it reaches the file, or the file
  // already says the same.
  lemma PutWritesDisk(c: Cache, key: Key, st: SessionState, wrote: bool)
    requires Consistent(c) && c.enabled
    ensures var c1, merged := Put(c, key, st, wrote), Merged(c, key, st);
            && c1.enabled
            && c1.disk == (if wrote then c.disk[key := Readable(merged)] else c.disk)
            && (Consistent(c1) <==> wrote || (key in c.disk && c.disk[key] == Readable(merged)))
  {
    hide Put, Merged, Indexed;
    PutKeepsMemory(c, key, st, wrote);
  }

  lemma RemoveForgets(c: Cache, key: Key, removed: bool)
    requires Consistent(c)
    ensures Consistent(Remove(c, key, removed))
    ensures Remove(c, key, removed).enabled == c.enabled
    ensures Remove(c, key, removed).disk == if removed then c.disk - {key} else c.disk
  {
    WithoutRemoves(c.order, key);
  }

  // ----- The plain map -----------------------------------------------------------------------------

  // What the cache stands for: an unbounded map and a switch.
  datatype Plain = Plain(table: map<Key, SessionState>, enabled: bool)

  function Look(p: Plain, key: Key): SessionState {
    if p.enabled && key in p.table then p.table[key] else ZERO
  }

  function Store(p: Plain, key: Key, st: SessionState): Plain {
    if p.enabled then p.(table := p.table[key := st]) else p
  }

  datatype Op =
    | GetConversation(key: Key)
    | SetConversation(key: Key, conversation: string)
    | StartTurn(sid: string, newClient: string)
    | EndTurn(sid: string, conversation: string, empty: bool)
    | Forget(key: Key)
    | Toggle(on: bool)

  datatype Answer = Nothing | Conversation(id: string) | Started(turn: Option<Turn>)

  function CacheDo(c: Cache, op: Op): (Cache, Answer) {
    match op
    case GetConversation(key) => var (c1, st) := Fetch(c, key); (c1, Conversation(st.conversation))
    case SetConversation(key, conversation) => (Converse(c, key, conversation, true), Nothing)
    case StartTurn(sid, newClient) => var (c1, turn) := TakeTurn(c, sid, newClient); (c1, Started(turn))
    case EndTurn(sid, conversation, empty) => (Answered(c, sid, conversation, empty), Nothing)
    case Forget(key) => (Remove(c, key, true), Nothing)
    case Toggle(on) => (c.(enabled := on), Nothing)
  }

  function PlainDo(p: Plain, op: Op): (Plain, Answer) {
    match op
    case GetConversation(key) => (p, Conversation(Look(p, key).conversation))
    case SetConversation(key, conversation) =>
      (if conversation == "" then p else Store(p, key, Look(p, key).(conversation := conversation)), Nothing)
    case StartTurn(sid, newClient) =>
      if sid == "" then (p, Started(None))
      else
        var st := Advance(Look(p, SessionKey(sid)), newClient);
        (Store(p, SessionKey(sid), st), Started(Some(TurnOf(st))))
    case EndTurn(sid, conversation, empty) =>
      if sid == "" then (p, Nothing)
      else if empty then (p.(table := p.table - {SessionKey(sid)}), Nothing)
      else if conversation == "" then (p, Nothing)
      else (Store(p, SessionKey(sid), Look(p, SessionKey(sid)).(conversation := conversation)), Nothing)
    case Forget(key) => (p.(table := p.table - {key}), Nothing)
    case Toggle(on) => (p.(enabled := on), Nothing)
  }

  function CacheRun(c: Cache, ops: seq<Op>): (Cache, seq<Answer>)
    decreases |ops|
  {
    if ops == [] then (c, [])
    else
      var (c1, a) := CacheDo(c, ops[0]);
      var (c2, rest) := CacheRun(c1, ops[1..]);
      (c2, [a] + rest)
  }

  function PlainRun(p: Plain, ops: seq<Op>): (Plain, seq<Answer>)
    decreases |ops|
  {
    if ops == [] then (p, [])
    else
      var (p1, a) := PlainDo(p, ops[0]);
      var (p2, rest) := PlainRun(p1, ops[1..]);
      (p2, [a] + rest)
  }

  ghost predicate Agrees(c: Cache, p: Plain) {
    && c.enabled == p.enabled
    && (forall key :: OnDisk(c.disk, key) == if key in p.table then p.table[key] else ZERO)
  }

  // Reads first, then writes what it read with some change: the two locked calls of a turn.
  lemma FetchThenPut(c: Cache, p: Plain, key: Key, st: SessionState)
    requires Consistent(c) && Agrees(c, p)
    requires var prev := Look(p, key).conversation; st.conversation == "" ==> prev == ""
    ensures Fetch(c, key).1 == Look(p, key)
    ensures var c2 := Put(Fetch(c, key).0, key, st, true);
            Consistent(c2) && Agrees(c2, Store(p, key, st))
  {
    var (c1, prev) := Fetch(c, key);
    FetchReadsDisk(c, key);
    if c.enabled {
      PutWritesDisk(c1, key, st, true);
      assert key in c1.mem ==> c1.disk[key] == Readable(c1.mem[key]);
      assert Merged(c1, key, st) == st;
    }
  }

  lemma StoredIsReadable(c: Cache, key: Key)
    requires Consistent(c) && key in c.mem
    ensures key in c.disk && c.disk[key] == Readable(c.mem[key])
  {
  }

  // Setting the empty conversation id changes nothing: the write puts the old one back.
  lemma EmptyConversationRefines(c: Cache, p: Plain, key: Key)
    requires Consistent(c) && Agrees(c, p)
    ensures var c1 := Converse(c, key, "", true); Consistent(c1) && Agrees(c1, p)
  {
    hide Fetch, Put, Consistent;
    var (c1, prev) := Fetch(c, key);
    FetchReadsDisk(c, key);
    if c.enabled && prev.conversation != "" {
      PutWritesDisk(c1, key, prev.(conversation := ""), true);
      StoredIsReadable(c1, key);
      assert Merged(c1, key, prev.(conversation := "")) == prev;
    }
  }

  lemma ConverseRefines(c: Cache, p: Plain, key: Key, conversation: string)
    requires Consistent(c) && Agrees(c, p)
    ensures var c1, p1 := Converse(c, key, conversation, true), PlainDo(p, SetConversation(key, conversation)).0;
            Consistent(c1) && Agrees(c1, p1)
  {
    if conversation == "" {
      EmptyConversationRefines(c, p, key);
    } else {
      hide Put, Consistent;
      var prev := Fetch(c, key).1;
      FetchReadsDisk(c, key);
      if c.enabled && prev.conversation != conversation {
        FetchThenPut(c, p, key, prev.(conversation := conversation));
      }
    }
  }

  lemma FetchRefines(c: Cache, p: Plain, key: Key)
    requires Consistent(c) && Agrees(c, p)
    ensures var (c1, st) := Fetch(c, key); Consistent(c1) && Agrees(c1, p) && st == Look(p, key)
  {
    FetchReadsDisk(c, key);
  }

  lemma RemoveRefines(c: Cache, p: Plain, key: Key)
    requires Consistent(c) && Agrees(c, p)
    ensures Consistent(Remove(c, key, true)) && Agrees(Remove(c, key, true), p.(table := p.table - {key}))
  {
    hide Remove;
    RemoveForgets(c, key, true);
  }

  lemma ToggleRefines(c: Cache, p: Plain, on: bool)
    requires Consistent(c) && Agrees(c, p)
    ensures Consistent(c.(enabled := on)) && Agrees(c.(enabled := on), p.(enabled := on))
  {
  }

  lemma OpRefines(c: Cache, p: Plain, op: Op)
    requires Consistent(c) && Agrees(c, p)
    ensures var (c1, a), (p1, b) := CacheDo(c, op), PlainDo(p, op);
            Consistent(c1) && Agrees(c1, p1) && a == b
  {
    hide Fetch, Put, Remove, Converse, Consistent, Agrees;
    match op
    case GetConversation(key) => FetchRefines(c, p, key);
    case SetConversation(key, conversation) => ConverseRefines(c, p, key, conversation);
    case StartTurn(sid, newClient) =>
      if sid != "" {
        var key := SessionKey(sid);
        FetchThenPut(c, p, key, Advance(Look(p, key), newClient));
      }
    case EndTurn(sid, conversation, empty) =>
      if sid != "" {
        var key := SessionKey(sid);
        if empty {
          RemoveRefines(c, p, key);
        } else if conversation != "" {
          FetchThenPut(c, p, key, Look(p, key).(conversation := conversation));
        }
      }
    case Forget(key) => RemoveRefines(c, p, key);
    case Toggle(on) => ToggleRefines(c, p, on);
  }

  // However many sessions there are, no sequence of calls tells the bounded cache from the plain
  // map: every answer is the same.
  lemma {:induction false} CacheIsAPlainMap(c: Cache, p: Plain, ops: seq<Op>)
    requires Consistent(c) && Agrees(c, p)
    ensures var (c1, a), (p1, b) := CacheRun(c, ops), PlainRun(p, ops);
            Consistent(c1) && Agrees(c1, p1) && a == b
    decreases |ops|
  {
    if ops != [] {
      hide CacheDo, PlainDo, Consistent, Agrees;
      OpRefines(c, p, ops[0]);
      CacheIsAPlainMap(CacheDo(c, ops[0]).0, PlainDo(p, ops[0]).0, ops[1..]);
    }
  }

  // ----- What one call changes ----------------------------------------------------------------------

  // Every file but one is as before.
  ghost predicate OthersStay(c: Cache, c1: Cache, key: Key) {
    forall k :: k != key ==> (k in c1.disk <==> k in c.disk) && (k in c.disk ==> c1.disk[k] == c.disk[k])
  }

  function Told(c: Cache, key: Key): Answer {
    CacheDo(c, GetConversation(key)).1
  }

  lemma SessionsDiffer(sid: string, other: string)
    ensures SessionKey(sid) == "session:" + sid
    ensures "session:" + sid == "session:" + other <==> sid == other
  {
    CutAfter("session:", sid);
    CutAfter("session:", other);
  }

  lemma CutAfter(a: string, b: string)
    ensures (a + b)[|a|..] == b
  {
  }

  // A get answers what the file says, and nothing when the cache is switched off.
  lemma ToldIsOnDisk(c: Cache, key: Key)
    requires Consistent(c)
    ensures Told(c, key) == Conversation(if c.enabled then OnDisk(c.disk, key).conversation else "")
  {
    FetchReadsDisk(c, key);
  }

  // Reading a session and writing it back changed: the file holds what was written.
  lemma RewriteIsOnDisk(c: Cache, key: Key, st: SessionState)
    requires Consistent(c) && c.enabled
    requires st.conversation == "" ==> OnDisk(c.disk, key).conversation == ""
    ensures var c1 := Put(Fetch(c, key).0, key, st, true);
            Consistent(c1) && c1.enabled && c1.disk == c.disk[key := Readable(st)]
  {
    hide Fetch, Put, Consistent;
    var (c0, prev) := Fetch(c, key);
    FetchReadsDisk(c, key);
    PutWritesDisk(c0, key, st, true);
    if key in c0.mem {
      StoredIsReadable(c0, key);
    }
  }

  // A turn leaves the conversation alone, counts itself, and touches no other session. The client
  // id is minted when there is none.
  lemma TurnIsCounted(c: Cache, sid: string, newClient: string)
    requires Consistent(c) && c.enabled && sid != ""
    ensures var key := "session:" + sid;
            var (c1, answer) := CacheDo(c, StartTurn(sid, newClient));
            var before, after := OnDisk(c.disk, key), OnDisk(c1.disk, key);
            && after.conversation == before.conversation
            && (before.client != "" ==> after.client == before.client && after.turns == before.turns + 1)
            && (before.client == "" ==> after.client == newClient && after.turns == 1)
            && answer == Started(Some(Turn(after.client, after.turns == 1)))
            && OthersStay(c, c1, key)
            && forall k :: Told(c1, k) == Told(c, k)
  {
    hide Fetch, Put, Consistent, Told;
    var key := "session:" + sid;
    SessionsDiffer(sid, sid);
    FetchReadsDisk(c, key);
    var st := Advance(OnDisk(c.disk, key), newClient);
    RewriteIsOnDisk(c, key, st);
    var c1 := CacheDo(c, StartTurn(sid, newClient)).0;
    forall k ensures Told(c1, k) == Told(c, k) {
      ToldIsOnDisk(c, k);
      ToldIsOnDisk(c1, k);
    }
  }

  // The end of a turn stores the conversation it went to and nothing else; without an answer it
  // forgets the session, and without a conversation it changes nothing.
  lemma TurnIsClosed(c: Cache, sid: string, conversation: string, empty: bool)
    requires Consistent(c) && c.enabled && sid != ""
    ensures var key := "session:" + sid;
            var c1 := CacheDo(c, EndTurn(sid, conversation, empty)).0;
            && OthersStay(c, c1, key)
            && (empty ==> key !in c1.disk && Told(c1, key) == Conversation(""))
            && (!empty && conversation == "" ==> c1.disk == c.disk)
            && (!empty && conversation != "" ==>
                  && Told(c1, key) == Conversation(conversation)
                  && OnDisk(c1.disk, key) == OnDisk(c.disk, key).(conversation := conversation))
  {
    hide Fetch, Put, Remove, Consistent, Told;
    var key := "session:" + sid;
    SessionsDiffer(sid, sid);
    var c1 := CacheDo(c, EndTurn(sid, conversation, empty)).0;
    if empty {
      RemoveForgets(c, key, true);
      ToldIsOnDisk(c1, key);
    } else if conversation != "" {
      FetchReadsDisk(c, key);
      RewriteIsOnDisk(c, key, OnDisk(c.disk, key).(conversation := conversation));
      ToldIsOnDisk(c1, key);
    }
  }

  // Setting a conversation keeps client and turns; a get answers it from then on. The empty one
  // changes nothing.
  lemma SetIsTold(c: Cache, key: Key, conversation: string)
    requires Consistent(c) && c.enabled
    ensures var c1 := CacheDo(c, SetConversation(key, conversation)).0;
            && OthersStay(c, c1, key)
            && Told(c1, key) == (if conversation == "" then Told(c, key) else Conversation(conversation))
            && OnDisk(c1.disk, key).client == OnDisk(c.disk, key).client
            && OnDisk(c1.disk, key).turns == OnDisk(c.disk, key).turns
  {
    hide Fetch, Put, Consistent, Told;
    FetchReadsDisk(c, key);
    var c0 := Fetch(c, key).0;
    var c1 := CacheDo(c, SetConversation(key, conversation)).0;
    var prev := OnDisk(c.disk, key);
    ToldIsOnDisk(c, key);
    if prev.conversation != conversation {
      if conversation == "" {
        PutWritesDisk(c0, key, prev.(conversation := ""), true);
        StoredIsReadable(c0, key);
        StoredIsFound(c0, key);
      } else {
        RewriteIsOnDisk(c, key, prev.(conversation := conversation));
      }
    }
    ToldIsOnDisk(c1, key);
  }

  lemma StoredIsFound(c: Cache, key: Key)
    requires Consistent(c) && key in c.mem
    ensures OnDisk(c.disk, key) == c.mem[key]
  {
    StoredIsReadable(c, key);
  }

  // Forgetting removes one file.
  lemma ForgottenIsGone(c: Cache, key: Key)
    requires Consistent(c)
    ensures var c1 := CacheDo(c, Forget(key)).0; key !in c1.disk && OthersStay(c, c1, key)
  {
    hide Remove, Consistent;
    RemoveForgets(c, key, true);
  }

  // Switched off, the cache writes no file; only forgetting goes on.
  lemma OffWritesNothing(c: Cache, op: Op)
    requires !c.enabled && !op.Forget? && !(op.EndTurn? && op.empty)
    ensures CacheDo(c, op).0.disk == c.disk
  {
  }

  // Called on its own with an empty conversation id, SetSession keeps the stored one exactly when
  // the session is in memory or has none: what has been evicted is lost.
  lemma BareSetKeepsConversation(c: Cache, key: Key, st: SessionState)
    requires Consistent(c) && c.enabled && st.conversation == ""
    ensures OnDisk(Put(c, key, st, true).disk, key).conversation == OnDisk(c.disk, key).conversation
            <==> key in c.mem || OnDisk(c.disk, key).conversation == ""
  {
    PutWritesDisk(c, key, st, true);
    if key in c.mem {
      assert c.disk[key] == Readable(c.mem[key]);
    }
  }

  // ----- Turns of one session ---------------------------------------------------------------------

  // A session has a client id exactly when it has had a turn.
  ghost predicate Counted(p: Plain) {
    forall key :: key in p.table ==> p.table[key].turns >= 0 && (p.table[key].client == "" <==> p.table[key].turns == 0)
  }

  predicate FreshIds(op: Op) {
    op.StartTurn? ==> op.newClient != ""
  }

  // The call neither forgets the session nor switches the cache.
  predicate Spares(op: Op, key: Key) {
    match op
    case Forget(k) => k != key
    case EndTurn(sid, _, empty) => sid == "" || !empty || SessionKey(sid) != key
    case Toggle(_) => false
    case _ => true
  }

  lemma {:induction false} SparedSessionGoesOn(p: Plain, ops: seq<Op>, key: Key)
    requires Counted(p) && p.enabled && key in p.table && p.table[key].client != ""
    requires forall i :: 0 <= i < |ops| ==> FreshIds(ops[i]) && Spares(ops[i], key)
    ensures var p1 := PlainRun(p, ops).0;
            && Counted(p1) && p1.enabled && key in p1.table && p1.table[key].client == p.table[key].client
            && p1.table[key].turns >= p.table[key].turns
    decreases |ops|
  {
    if ops != [] {
      assert FreshIds(ops[0]) && Spares(ops[0], key);
      SparedSessionGoesOn(PlainDo(p, ops[0]).0, ops[1..], key);
    }
  }

  // The client id is minted on the first turn, which alone is the start of the session, and every
  // later turn has it, whatever other sessions do in between and whatever has been evicted.
  lemma TurnsShareOneClient(c: Cache, p: Plain, sid: string, id1: string, ops: seq<Op>, id2: string)
    requires Consistent(c) && Agrees(c, p) && Counted(p) && p.enabled && sid != "" && id1 != "" && id2 != ""
    requires forall i :: 0 <= i < |ops| ==> FreshIds(ops[i]) && Spares(ops[i], SessionKey(sid))
    ensures var (c1, first) := CacheDo(c, StartTurn(sid, id1));
            var (c2, second) := CacheDo(CacheRun(c1, ops).0, StartTurn(sid, id2));
            && first.Started? && first.turn.Some? && second.Started? && second.turn.Some?
            && second.turn.value == Turn(first.turn.value.client, false)
            && (first.turn.value.isStart <==> OnDisk(c.disk, SessionKey(sid)).client == "")
            && (first.turn.value.isStart ==> first.turn.value.client == id1)
  {
    var key := SessionKey(sid);
    OpRefines(c, p, StartTurn(sid, id1));
    var c1 := CacheDo(c, StartTurn(sid, id1)).0;
    var p1 := PlainDo(p, StartTurn(sid, id1)).0;
    assert p1.table[key] == Advance(Look(p, key), id1);
    SparedSessionGoesOn(p1, ops, key);
    CacheIsAPlainMap(c1, p1, ops);
    OpRefines(CacheRun(c1, ops).0, PlainRun(p1, ops).0, StartTurn(sid, id2));
  }
}
