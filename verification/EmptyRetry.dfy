/** The stream of a Responses request: when the upstream completes a turn without showing anything,
    the turn is asked for again, a fixed number of times. */
module EmptyRetry {
  import opened Options
  import opened Seqs

  datatype Chunk =
    | Failure(reason: string)
    | Final(finish: string)
    | Piece(text: string, thinking: string)

  predicate Terminal(c: Chunk) {
    !c.Piece?
  }

  // What the upstream does when it is asked: the chunks until its channel closes, whether the
  // request is cancelled by then, and whether it is cancelled during the wait that would follow.
  datatype Attempt = Attempt(chunks: seq<Chunk>, goneAtClose: bool, goneInWait: bool)

  // A chunk sent to the client, with the attempt it comes from.
  datatype Sent = Sent(attempt: nat, chunk: Chunk)

  // `calls` lists the conversations the upstream was asked in. `cancelled` says that the request
  // went away, which shows when a chunk is refused, at the close of a stream or during a wait.
  datatype Relay = Relay(out: seq<Sent>, calls: seq<string>, cancelled: bool)

  datatype Ending = Retry | Over | Closed

  // ----- The specification ---------------------------------------------------------------------------

  // What the client sees of a piece; simulated transports hide the thinking.
  function Seen(c: Chunk, simulated: bool): Chunk
    requires c.Piece?
  {
    if simulated then c.(thinking := "") else c
  }

  predicate Visible(c: Chunk, simulated: bool) {
    c.Piece? && Seen(c, simulated) != Piece("", "")
  }

  function Offer(r: Relay, attempt: nat, chunk: Chunk, room: nat): Relay {
    if |r.out| < room then r.(out := r.out + [Sent(attempt, chunk)]) else r.(cancelled := true)
  }

  // Relays one attempt. `shown` says whether it has shown something, `last` that no retry is left.
  function Pump(r: Relay, attempt: nat, chunks: seq<Chunk>, shown: bool, last: bool, simulated: bool, room: nat)
      : (Relay, Ending)
    decreases |chunks|
  {
    if chunks == [] then (r, Closed)
    else
      var c, rest := chunks[0], chunks[1..];
      match c
      case Failure(_) => (Offer(r, attempt, c, room), Over)
      case Final(_) => if shown || last then (Offer(r, attempt, c, room), Over) else (r, Retry)
      case Piece(_, _) =>
        if !Visible(c, simulated) then Pump(r, attempt, rest, shown, last, simulated, room)
        else
          var r1 := Offer(r, attempt, Seen(c, simulated), room);
          if r1.cancelled then (r1, Over) else Pump(r1, attempt, rest, true, last, simulated, room)
  }

  function CloseStream(r: Relay, attempt: nat, gone: bool, room: nat): Relay {
    if gone then r.(cancelled := true) else Offer(r, attempt, Failure("connection closed"), room)
  }

  function Ask(r: Relay, upstream: nat -> Attempt, attempt: nat, conversation: string,
               retries: nat, simulated: bool, room: nat): Relay
    decreases retries - attempt
  {
    var a := upstream(attempt);
    var asked := r.(calls := r.calls + [conversation]);
    var (r1, ending) := Pump(asked, attempt, a.chunks, false, attempt >= retries, simulated, room);
    match ending
    case Over => r1
    case Closed => CloseStream(r1, attempt, a.goneAtClose, room)
    case Retry =>
      if attempt >= retries then r1
      else if a.goneInWait then r1.(cancelled := true)
      else Ask(r1, upstream, attempt + 1, "", retries, simulated, room)
  }

  // ----- What an attempt can do --------------------------------------------------------------------------

  ghost predicate OnlyPieces(out: seq<Sent>) {
    forall i :: 0 <= i < |out| ==> out[i].chunk.Piece?
  }

  ghost predicate AllFrom(out: seq<Sent>, attempt: nat) {
    forall i :: 0 <= i < |out| ==> out[i].attempt == attempt
  }

  // The chunks that show something, as sent by an attempt.
  function Shown(chunks: seq<Chunk>, attempt: nat, simulated: bool): seq<Sent> {
    if chunks == [] || Terminal(chunks[0]) then []
    else
      (if Visible(chunks[0], simulated) then [Sent(attempt, Seen(chunks[0], simulated))] else [])
      + Shown(chunks[1..], attempt, simulated)
  }

  // How the upstream ends a stream, or None when it just closes it.
  function EndOf(chunks: seq<Chunk>): (end: Option<Chunk>)
    ensures end.Some? ==> Terminal(end.value)
  {
    if chunks == [] then None else if Terminal(chunks[0]) then Some(chunks[0]) else EndOf(chunks[1..])
  }

  // The first few of `added` have been appended.
  ghost predicate SomeOf(out: seq<Sent>, before: seq<Sent>, added: seq<Sent>) {
    exists k :: 0 <= k <= |added| && out == before + added[..k]
  }

  // Unless the request goes away, an attempt adds what it shows and how it ends; it ends in a
  // retry exactly when it completed without showing anything and a retry is left.
  lemma {:induction false} PumpSends(r: Relay, attempt: nat, chunks: seq<Chunk>, shown: bool, last: bool,
                                     simulated: bool, room: nat)
    requires !r.cancelled
    ensures var (r1, ending) := Pump(r, attempt, chunks, shown, last, simulated, room);
            && r1.calls == r.calls
            && (r1.cancelled ==> ending == Over && SomeOf(r1.out, r.out, Shown(chunks, attempt, simulated)))
            && (!r1.cancelled ==>
                  var all, end := Shown(chunks, attempt, simulated), EndOf(chunks);
                  && (ending == Retry <==> end.Some? && end.value.Final? && !last && !shown && all == [])
                  && (ending == Closed <==> end.None?)
                  && r1.out == r.out + all + if ending == Over then [Sent(attempt, end.value)] else [])
    decreases |chunks|
  {
    ConcatEmpty(r.out);
    if chunks != [] && chunks[0].Piece? {
      var rest := chunks[1..];
      var all := Shown(rest, attempt, simulated);
      if !Visible(chunks[0], simulated) {
        ConcatEmpty(all);
        assert Shown(chunks, attempt, simulated) == all;
        PumpSends(r, attempt, rest, shown, last, simulated, room);
      } else {
        var first := Sent(attempt, Seen(chunks[0], simulated));
        var r1 := Offer(r, attempt, first.chunk, room);
        if r1.cancelled {
          assert r1.out == r.out + Shown(chunks, attempt, simulated)[..0];
        } else {
          PumpSends(r1, attempt, rest, true, last, simulated, room);
          var (r2, ending) := Pump(r1, attempt, rest, true, last, simulated, room);
          if r2.cancelled {
            var k :| 0 <= k <= |all| && r2.out == r1.out + all[..k];
            ConcatAssociates(r.out, [first], all[..k]);
            assert ([first] + all)[..k + 1] == [first] + all[..k];
          } else {
            ConcatAssociates(r.out, [first], all);
          }
        }
      }
    } else if chunks != [] && Offer(r, attempt, chunks[0], room).cancelled {
      assert r.out == r.out + Shown(chunks, attempt, simulated)[..0];
    }
  }

  // The attempt completed and showed nothing.
  predicate Silent(a: Attempt, simulated: bool) {
    Shown(a.chunks, 0, simulated) == [] && EndOf(a.chunks).Some? && EndOf(a.chunks).value.Final?
  }

  lemma {:induction false} ShownByAny(chunks: seq<Chunk>, attempt: nat, simulated: bool)
    ensures |Shown(chunks, attempt, simulated)| == |Shown(chunks, 0, simulated)|
    ensures AllFrom(Shown(chunks, attempt, simulated), attempt) && OnlyPieces(Shown(chunks, attempt, simulated))
  {
    if chunks != [] && chunks[0].Piece? {
      ShownByAny(chunks[1..], attempt, simulated);
    }
  }

  // How a stream that was not cancelled ends.
  function Closing(a: Attempt): Chunk {
    if EndOf(a.chunks).Some? then EndOf(a.chunks).value else Failure("connection closed")
  }

  // What the relay has sent after the calls `before` and `n + 1 - attempt` more.
  ghost predicate Served(r: Relay, before: seq<string>, upstream: nat -> Attempt, attempt: nat, n: nat,
                         conversation: string, retries: nat, simulated: bool) {
    && attempt <= n <= retries
    && r.calls == before + [conversation] + seq(n - attempt, _ => "")
    && (forall m :: attempt <= m < n ==> Silent(upstream(m), simulated))
    && (if r.cancelled then SomeOf(r.out, [], Shown(upstream(n).chunks, n, simulated))
        else && r.out == Shown(upstream(n).chunks, n, simulated) + [Sent(n, Closing(upstream(n)))]
             && (Silent(upstream(n), simulated) ==> n == retries))
  }

  lemma LastAttemptServed(r: Relay, upstream: nat -> Attempt, attempt: nat, conversation: string,
                          retries: nat, simulated: bool, room: nat)
    requires !r.cancelled && r.out == [] && attempt <= retries
    requires var a, asked := upstream(attempt), r.(calls := r.calls + [conversation]);
             var (r1, ending) := Pump(asked, attempt, a.chunks, false, attempt >= retries, simulated, room);
             ending != Retry || a.goneInWait
    ensures Served(Ask(r, upstream, attempt, conversation, retries, simulated, room), r.calls, upstream,
                   attempt, attempt, conversation, retries, simulated)
  {
    var a := upstream(attempt);
    var all := Shown(a.chunks, attempt, simulated);
    ShownByAny(a.chunks, attempt, simulated);
    PumpSends(r.(calls := r.calls + [conversation]), attempt, a.chunks, false, attempt >= retries, simulated, room);
    ConcatEmpty(all);
    ConcatEmpty(r.calls + [conversation]);
    assert all[..|all|] == all && all[..0] == [];
    hide Shown, EndOf, Pump;
    var after := Ask(r, upstream, attempt, conversation, retries, simulated, room);
    if after.cancelled {
      if after.out == all {
        assert SomeOf(after.out, [], all);
      } else if after.out == [] {
        assert SomeOf(after.out, [], all);
      }
    }
  }

  lemma MoreCalls(before: seq<string>, conversation: string, k: nat)
    ensures (before + [conversation]) + [""] + seq(k, _ => "") == before + [conversation] + seq(k + 1, _ => "")
  {
  }

  // A silent attempt before what has been served.
  lemma OneMoreServed(r: Relay, before: seq<string>, upstream: nat -> Attempt, attempt: nat, n: nat,
                      conversation: string, retries: nat, simulated: bool)
    requires Served(r, before + [conversation], upstream, attempt + 1, n, "", retries, simulated)
    requires Silent(upstream(attempt), simulated)
    ensures Served(r, before, upstream, attempt, n, conversation, retries, simulated)
  {
    hide Shown, EndOf, Silent, SomeOf;
    MoreCalls(before, conversation, n - attempt - 1);
  }

  lemma {:induction false} AskServes(r: Relay, upstream: nat -> Attempt, attempt: nat, conversation: string,
                                     retries: nat, simulated: bool, room: nat)
      returns (n: nat)
    requires !r.cancelled && r.out == [] && attempt <= retries
    ensures Served(Ask(r, upstream, attempt, conversation, retries, simulated, room), r.calls, upstream,
                   attempt, n, conversation, retries, simulated)
    decreases retries - attempt
  {
    hide Served, Shown, EndOf, Pump;
    var a := upstream(attempt);
    var asked := r.(calls := r.calls + [conversation]);
    var (r1, ending) := Pump(asked, attempt, a.chunks, false, attempt >= retries, simulated, room);
    if ending == Retry && !a.goneInWait {
      PumpSends(asked, attempt, a.chunks, false, attempt >= retries, simulated, room);
      ShownByAny(a.chunks, attempt, simulated);
      n := AskServes(r1, upstream, attempt + 1, "", retries, simulated, room);
      var after := Ask(r1, upstream, attempt + 1, "", retries, simulated, room);
      OneMoreServed(after, r.calls, upstream, attempt, n, conversation, retries, simulated);
    } else {
      n := attempt;
      LastAttemptServed(r, upstream, attempt, conversation, retries, simulated, room);
    }
  }

  // For every upstream: at most one call more than there are retries, all but the first in a new
  // conversation, each after an attempt that completed in silence. The client sees the last
  // attempt alone. A run that is not cancelled ends with its closing chunk, the only terminal one;
  // a cancelled run has sent none.
  lemma RetriesAreInvisible(upstream: nat -> Attempt, initial: string, retries: nat, simulated: bool, room: nat)
    returns (n: nat)
    ensures var r := Ask(Relay([], [], false), upstream, 0, initial, retries, simulated, room);
            && n <= retries && |r.calls| == n + 1 && r.calls[0] == initial
            && (forall i :: 1 <= i <= n ==> r.calls[i] == "")
            && (forall m :: 0 <= m < n ==> Silent(upstream(m), simulated))
            && AllFrom(r.out, n)
            && (r.cancelled ==> OnlyPieces(r.out))
            && (!r.cancelled ==> r.out != [] && Last(r.out) == Sent(n, Closing(upstream(n)))
                                 && Terminal(Last(r.out).chunk) && OnlyPieces(Init(r.out))
                                 && Init(r.out) == Shown(upstream(n).chunks, n, simulated)
                                 && (Silent(upstream(n), simulated) ==> n == retries))
  {
    n := AskServes(Relay([], [], false), upstream, 0, initial, retries, simulated, room);
    ShownByAny(upstream(n).chunks, n, simulated);
  }

  // ----- What the client is told -------------------------------------------------------------------------

  // The text and the thinking of the pieces the upstream sends before it ends the stream.
  function TextOf(chunks: seq<Chunk>): string {
    if chunks == [] || !chunks[0].Piece? then "" else chunks[0].text + TextOf(chunks[1..])
  }

  function ThinkingOf(chunks: seq<Chunk>): string {
    if chunks == [] || !chunks[0].Piece? then "" else chunks[0].thinking + ThinkingOf(chunks[1..])
  }

  function Chunks(out: seq<Sent>): (chunks: seq<Chunk>)
    ensures |chunks| == |out| && forall i :: 0 <= i < |out| ==> chunks[i] == out[i].chunk
  {
    seq(|out|, i requires 0 <= i < |out| => out[i].chunk)
  }

  lemma {:induction false} ShownIsTold(chunks: seq<Chunk>, attempt: nat, simulated: bool)
    ensures var told := Chunks(Shown(chunks, attempt, simulated));
            && TextOf(told) == TextOf(chunks)
            && ThinkingOf(told) == (if simulated then "" else ThinkingOf(chunks))
            && (forall i :: 0 <= i < |told| ==> told[i].Piece? && told[i] != Piece("", ""))
    decreases |chunks|
  {
    if chunks != [] && chunks[0].Piece? {
      var c, rest := chunks[0], Shown(chunks[1..], attempt, simulated);
      ShownIsTold(chunks[1..], attempt, simulated);
      if Visible(c, simulated) {
        assert Chunks([Sent(attempt, Seen(c, simulated))] + rest) == [Seen(c, simulated)] + Chunks(rest);
      } else {
        ConcatEmpty(rest);
        ConcatEmpty(TextOf(chunks[1..]));
        ConcatEmpty(ThinkingOf(chunks[1..]));
      }
    }
  }

  // The chunk that ends the stream stands at place i.
  ghost predicate EndsAt(chunks: seq<Chunk>, i: nat) {
    i < |chunks| && !chunks[i].Piece? && forall k :: 0 <= k < i ==> chunks[k].Piece?
  }

  lemma {:induction false} EndIsTheFirst(chunks: seq<Chunk>, i: nat)
    ensures EndsAt(chunks, i) ==> EndOf(chunks) == Some(chunks[i])
    ensures (forall k :: 0 <= k < |chunks| ==> chunks[k].Piece?) ==> EndOf(chunks) == None
    decreases |chunks|
  {
    if chunks != [] && chunks[0].Piece? {
      EndIsTheFirst(chunks[1..], if i > 0 then i - 1 else 0);
      assert i > 0 && EndsAt(chunks, i) ==> EndsAt(chunks[1..], i - 1);
    }
  }

  // An attempt is silent exactly when it has no text, no thinking that would be passed on, and
  // completes.
  lemma SilentExactly(a: Attempt, simulated: bool, i: nat)
    requires EndsAt(a.chunks, i)
    ensures Silent(a, simulated) <==>
              TextOf(a.chunks) == "" && (simulated || ThinkingOf(a.chunks) == "") && a.chunks[i].Final?
  {
    EndIsTheFirst(a.chunks, i);
    ShownIsTold(a.chunks, 0, simulated);
    var told := Chunks(Shown(a.chunks, 0, simulated));
    if told != [] {
      assert told[0].Piece? && told[0] != Piece("", "");
    }
  }

  lemma {:induction false} PartIsToldFirst(chunks: seq<Chunk>, k: nat)
    requires k <= |chunks|
    ensures TextOf(chunks[..k]) <= TextOf(chunks) && ThinkingOf(chunks[..k]) <= ThinkingOf(chunks)
    decreases k
  {
    if k > 0 && chunks[0].Piece? {
      assert chunks[..k][1..] == chunks[1..][..k - 1];
      PartIsToldFirst(chunks[1..], k - 1);
    }
  }

  lemma {:induction false} EndAddsNoText(pieces: seq<Chunk>, end: Chunk)
    requires !end.Piece?
    ensures TextOf(pieces + [end]) == TextOf(pieces) && ThinkingOf(pieces + [end]) == ThinkingOf(pieces)
  {
    if pieces != [] {
      TailOfConcat(pieces, [end]);
      EndAddsNoText(pieces[1..], end);
    }
  }

  // `told` is the whole of the attempt: its text, its thinking unless the transport is simulated, and
  // then its end, or that the connection closed.
  ghost predicate TellsAll(told: seq<Chunk>, chunks: seq<Chunk>, simulated: bool) {
    && TextOf(told) == TextOf(chunks)
    && ThinkingOf(told) == (if simulated then "" else ThinkingOf(chunks))
    && told != []
    && (forall i: nat :: EndsAt(chunks, i) ==> Last(told) == chunks[i])
    && ((forall k :: 0 <= k < |chunks| ==> chunks[k].Piece?) ==> Last(told) == Failure("connection closed"))
  }

  lemma AllIsTold(a: Attempt, n: nat, simulated: bool)
    ensures TellsAll(Chunks(Shown(a.chunks, n, simulated) + [Sent(n, Closing(a))]), a.chunks, simulated)
  {
    var all := Shown(a.chunks, n, simulated);
    ShownIsTold(a.chunks, n, simulated);
    assert Chunks(all + [Sent(n, Closing(a))]) == Chunks(all) + [Closing(a)];
    EndAddsNoText(Chunks(all), Closing(a));
    forall i: nat | EndsAt(a.chunks, i) ensures Closing(a) == a.chunks[i] {
      EndIsTheFirst(a.chunks, i);
    }
    EndIsTheFirst(a.chunks, 0);
  }

  lemma PartIsTold(chunks: seq<Chunk>, n: nat, simulated: bool, out: seq<Sent>)
    requires SomeOf(out, [], Shown(chunks, n, simulated))
    ensures TextOf(Chunks(out)) <= TextOf(chunks)
    ensures ThinkingOf(Chunks(out)) <= if simulated then "" else ThinkingOf(chunks)
  {
    hide Shown, TextOf, ThinkingOf;
    var all := Shown(chunks, n, simulated);
    var k :| 0 <= k <= |all| && out == [] + all[..k];
    ShownIsTold(chunks, n, simulated);
    assert Chunks(out) == Chunks(all)[..k];
    PartIsToldFirst(Chunks(all), k);
  }

  // What the client is told in all is the whole of the last attempt, or a beginning of it when the
  // request was cancelled.
  lemma LastAttemptIsTold(upstream: nat -> Attempt, initial: string, retries: nat, simulated: bool, room: nat)
    returns (n: nat)
    ensures var r := Ask(Relay([], [], false), upstream, 0, initial, retries, simulated, room);
            && n <= retries && |r.calls| == n + 1
            && var told, last := Chunks(r.out), upstream(n).chunks;
            && (!r.cancelled ==> TellsAll(told, last, simulated))
            && (r.cancelled ==> TextOf(told) <= TextOf(last)
                                && ThinkingOf(told) <= if simulated then "" else ThinkingOf(last))
  {
    hide Shown, TellsAll, TextOf, ThinkingOf, Ask, SomeOf;
    var start := Relay([], [], false);
    n := AskServes(start, upstream, 0, initial, retries, simulated, room);
    var r := Ask(start, upstream, 0, initial, retries, simulated, room);
    if r.cancelled {
      PartIsTold(upstream(n).chunks, n, simulated, r.out);
    } else {
      AllIsTold(upstream(n), n, simulated);
    }
  }

  // A chunk is refused when, and only when, the client has taken as many as it will.
  lemma {:induction false} PumpKeepsRoom(r: Relay, attempt: nat, chunks: seq<Chunk>, shown: bool, last: bool,
                                         simulated: bool, room: nat)
    requires !r.cancelled && |r.out| <= room
    ensures var r1 := Pump(r, attempt, chunks, shown, last, simulated, room).0;
            |r1.out| <= room && (r1.cancelled ==> |r1.out| == room)
    decreases |chunks|
  {
    if chunks != [] && chunks[0].Piece? {
      if !Visible(chunks[0], simulated) {
        PumpKeepsRoom(r, attempt, chunks[1..], shown, last, simulated, room);
      } else {
        var r1 := Offer(r, attempt, Seen(chunks[0], simulated), room);
        if !r1.cancelled {
          PumpKeepsRoom(r1, attempt, chunks[1..], true, last, simulated, room);
        }
      }
    }
  }

  // Why the last attempt was cancelled: a chunk refused, or the request gone at the close of the
  // stream or in the wait before the next attempt.
  ghost predicate Reason(r: Relay, a: Attempt, n: nat, retries: nat, simulated: bool, room: nat) {
    || |r.out| == room
    || (a.goneAtClose && EndOf(a.chunks) == None)
    || (a.goneInWait && n < retries && Silent(a, simulated))
  }

  lemma {:induction false} CancelledForAReason(r: Relay, upstream: nat -> Attempt, attempt: nat, conversation: string,
                                               retries: nat, simulated: bool, room: nat)
      returns (n: nat)
    requires !r.cancelled && r.out == [] && attempt <= retries
    ensures var after := Ask(r, upstream, attempt, conversation, retries, simulated, room);
            && attempt <= n <= retries && |after.calls| == |r.calls| + n - attempt + 1 && |after.out| <= room
            && (after.cancelled ==> Reason(after, upstream(n), n, retries, simulated, room))
    decreases retries - attempt
  {
    hide Shown, EndOf, Pump;
    var a := upstream(attempt);
    var asked := r.(calls := r.calls + [conversation]);
    var (r1, ending) := Pump(asked, attempt, a.chunks, false, attempt >= retries, simulated, room);
    PumpSends(asked, attempt, a.chunks, false, attempt >= retries, simulated, room);
    PumpKeepsRoom(asked, attempt, a.chunks, false, attempt >= retries, simulated, room);
    ShownByAny(a.chunks, attempt, simulated);
    n := attempt;
    if ending == Retry && !a.goneInWait {
      n := CancelledForAReason(r1, upstream, attempt + 1, "", retries, simulated, room);
    }
  }

  // ----- The relay -------------------------------------------------------------------------------------

  class StreamRelay {
    var out: seq<Sent>
    var calls: seq<string>
    var cancelled: bool
    const room: nat

    constructor (room: nat)
      ensures State() == Relay([], [], false) && this.room == room
    {
      out, calls, cancelled := [], [], false;
      this.room := room;
    }

    function State(): Relay
      reads this
    {
      Relay(out, calls, cancelled)
    }

    method Emit(attempt: nat, chunk: Chunk) returns (taken: bool)
      modifies this`out, this`cancelled
      ensures State() == Offer(old(State()), attempt, chunk, room)
      ensures !old(cancelled) ==> taken == !cancelled
    {
      if |out| < room {
        out := out + [Sent(attempt, chunk)];
        return true;
      }
      cancelled := true;
      return false;
    }

    method RelayStream(attempt: nat, chunks: seq<Chunk>, retries: nat, simulated: bool) returns (ending: Ending)
      requires !cancelled
      modifies this`out, this`cancelled
      ensures (State(), ending) == Pump(old(State()), attempt, chunks, false, attempt >= retries, simulated, room)
    {
      var sawVisible := false;
      var last := attempt >= retries;
      for i := 0 to |chunks|
        invariant !cancelled
        invariant Pump(State(), attempt, chunks[i..], sawVisible, last, simulated, room)
                  == Pump(old(State()), attempt, chunks, false, last, simulated, room)
      {
        assert chunks[i..][1..] == chunks[i + 1..];
        var chunk := chunks[i];
        if chunk.Failure? {
          var taken := Emit(attempt, chunk);
          return Over;
        }
        if chunk.Final? {
          if sawVisible || attempt >= retries {
            var taken := Emit(attempt, chunk);
            return Over;
          }
          return Retry;
        }
        if simulated {
          chunk := chunk.(thinking := "");
        }
        if chunk.text == "" && chunk.thinking == "" {
          continue;
        }
        sawVisible := true;
        var taken := Emit(attempt, chunk);
        if !taken {
          return Over;
        }
      }
      return Closed;
    }

    method Run(upstream: nat -> Attempt, initial: string, retries: nat, simulated: bool)
      requires !cancelled
      modifies this
      ensures State() == Ask(old(State()), upstream, 0, initial, retries, simulated, room)
    {
      var conversation := initial;
      var attempt := 0;
      while true
        invariant !cancelled && attempt <= retries
        invariant Ask(State(), upstream, attempt, conversation, retries, simulated, room)
                  == Ask(old(State()), upstream, 0, initial, retries, simulated, room)
        decreases retries - attempt
      {
        calls := calls + [conversation];
        var a := upstream(attempt);
        PumpSends(State(), attempt, a.chunks, false, attempt >= retries, simulated, room);
        var ending := RelayStream(attempt, a.chunks, retries, simulated);
        if ending == Over {
          return;
        }
        if ending == Closed {
          if !a.goneAtClose {
            var taken := Emit(attempt, Failure("connection closed"));
          } else {
            cancelled := true;
          }
          return;
        }
        if attempt >= retries {
          return;
        }
        if a.goneInWait {
          cancelled := true;
          return;
        }
        conversation := "";
        attempt := attempt + 1;
      }
    }
  }
}
