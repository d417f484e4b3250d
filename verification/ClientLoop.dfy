/** The loop itself, updating its fields chunk by chunk. */
module ClientLoop {
  import opened Citations
  import opened ClientStream
  import opened Seqs
  import opened Spaces

  class StreamLoop {
    var accText: string
    var toolCalls: seq<ToolCall>
    var seenImages: set<string>
    const citations: CitationFilter
    var finalConvId: string
    var out: seq<Chunk>
    const room: nat
    var refused: bool
    var gone: bool
    var done: bool

    ghost predicate Valid()
      reads this, citations
    {
      citations.Valid()
    }

    function State(): Turn
      reads this, citations
    {
      Turn(accText, toolCalls, seenImages, citations.pending, finalConvId, out, room, refused, gone, done)
    }

    constructor (room: nat)
      ensures Valid() && State() == Fresh(room) && fresh(citations)
    {
      accText, toolCalls, seenImages, finalConvId, out := "", [], {}, "", [];
      refused, gone, done := false, false, false;
      this.room := room;
      citations := new CitationFilter();
    }

    // Offers a chunk; the loop ends when it is not taken.
    method Emit(chunk: Chunk) returns (taken: bool)
      modifies this`out, this`refused, this`done
      ensures State() == Send(old(State()), chunk) && (!old(done) ==> taken == !done)
    {
      if |out| < room {
        out := out + [chunk];
        return true;
      }
      refused, done := true, true;
      return false;
    }

    method WriteText(text: string)
      requires !done
      modifies this`accText, this`out, this`refused, this`done
      ensures State() == Write(old(State()), text)
    {
      if text != "" {
        accText := accText + text;
        var taken := Emit(Text(text));
      }
    }

    method ImageMarkdown(urls: seq<string>) returns (links: string)
      modifies this`seenImages
      ensures (links, seenImages) == NewImages(urls, old(seenImages))
    {
      links := "";
      for i := 0 to |urls|
        invariant (links, seenImages) == NewImages(urls[..i], old(seenImages))
      {
        assert Init(urls[..i + 1]) == urls[..i];
        if urls[i] == "" || urls[i] in seenImages {
          continue;
        }
        seenImages := seenImages + {urls[i]};
        links := links + ImageLink(urls[i]);
      }
      assert urls[..|urls|] == urls;
    }

    method ReadMessage(m: Message)
      requires Valid() && !done
      modifies this`accText, this`toolCalls, this`seenImages, this`out, this`refused, this`done
      ensures Valid() && State() == Read(old(State()), m)
    {
      if m.tool.Some? {
        toolCalls := toolCalls + [m.tool.value];
      }
      if m.thought != "" {
        var taken := Emit(Thinking(m.thought));
        if !taken {
          return;
        }
      }
      var links := ImageMarkdown(m.images);
      WriteText(links);
      if done {
        return;
      }
      toolCalls := toolCalls + m.searches;
    }

    method ShowSnapshot(answer: string)
      requires Valid() && !done
      modifies this`accText, this`out, this`refused, this`done
      ensures Valid() && State() == Show(old(State()), answer)
    {
      if answer == "" {
        return;
      }
      var snapshot := StripCitations(answer);
      var delta := SnapshotDelta(accText, snapshot);
      if delta.Some? {
        CutPrefix(accText, snapshot);
        accText := snapshot;
        if delta.value != "" {
          var taken := Emit(Text(delta.value));
        }
      }
    }

    method ApplyArg(a: Arg)
      requires Valid() && !done
      modifies this, citations
      ensures Valid() && State() == Apply(old(State()), a)
    {
      hide Read, Write, Strip, Open;
      if a.conversation != "" {
        finalConvId := a.conversation;
      }
      ghost var start := State();
      var messages := a.messages;
      for i := 0 to |messages|
        invariant Valid() && State() == ReadAll(start, messages[..i]) && !done
      {
        assert Init(messages[..i + 1]) == messages[..i];
        ReadMessage(messages[i]);
        if done {
          DoneReads(start, messages, i + 1);
          return;
        }
      }
      assert messages[..|messages|] == messages;
      if |messages| > 0 {
        ShowSnapshot(messages[|messages| - 1].answer);
        if done {
          return;
        }
      }
      var text := citations.Push(a.cursor);
      WriteText(text);
    }

    // Runs until the events end or the loop has returned.
    method Run(events: seq<Event>)
      requires Valid() && !done
      modifies this, citations
      ensures Valid() && State() == HandleAll(old(State()), events)
    {
      ghost var start := State();
      for i := 0 to |events|
        invariant Valid() && State() == HandleAll(start, events[..i]) && !done
      {
        assert Init(events[..i + 1]) == events[..i];
        HandleEvent(events[i]);
        if done {
          DoneHandles(start, events, i + 1);
          return;
        }
      }
      assert events[..|events|] == events;
    }

    method HandleEvent(e: Event)
      requires Valid() && !done
      modifies this, citations
      ensures Valid() && State() == Handle(old(State()), e)
    {
      match e
      case Update(args) =>
        ghost var start := State();
        for i := 0 to |args|
          invariant Valid() && State() == ApplyAll(start, args[..i]) && !done
        {
          assert Init(args[..i + 1]) == args[..i];
          ApplyArg(args[i]);
          if done {
            DoneApplies(start, args, i + 1);
            return;
          }
        }
        assert args[..|args|] == args;
      case Invocation(conversation, failure) =>
        if conversation != "" {
          finalConvId := conversation;
        }
        if failure.Some? && Blank(accText) {
          var taken := Emit(Failed(failure.value));
          done := true;
        }
      case Completion =>
        var held := citations.Flush();
        if Blank(accText) && |toolCalls| == 0 {
          var taken := Emit(Failed("empty turn"));
          done := true;
          return;
        }
        var finish := "stop";
        if |toolCalls| > 0 {
          finish := "tool_calls";
        }
        var taken := Emit(Final(finalConvId, toolCalls, finish));
        done := true;
      case ServerError(reason) =>
        var taken := Emit(Failed(reason));
        done := true;
      case ReadError(reason) =>
        var taken := Emit(Failed(reason));
        done := true;
      case Gone =>
        gone, done := true, true;
      case Other =>
    }
  }

  lemma {:induction false} DoneReads(t: Turn, messages: seq<Message>, n: nat)
    requires n <= |messages| && ReadAll(t, messages[..n]).done
    ensures ReadAll(t, messages) == ReadAll(t, messages[..n])
    decreases |messages| - n
  {
    if n < |messages| {
      assert Init(messages[..n + 1]) == messages[..n];
      DoneReads(t, messages, n + 1);
    } else {
      assert messages[..n] == messages;
    }
  }

  lemma {:induction false} DoneApplies(t: Turn, args: seq<Arg>, n: nat)
    requires n <= |args| && ApplyAll(t, args[..n]).done
    ensures ApplyAll(t, args) == ApplyAll(t, args[..n])
    decreases |args| - n
  {
    if n < |args| {
      assert Init(args[..n + 1]) == args[..n];
      DoneApplies(t, args, n + 1);
    } else {
      assert args[..n] == args;
    }
  }

  lemma {:induction false} DoneHandles(t: Turn, events: seq<Event>, n: nat)
    requires n <= |events| && HandleAll(t, events[..n]).done
    ensures HandleAll(t, events) == HandleAll(t, events[..n])
    decreases |events| - n
  {
    if n < |events| {
      assert Init(events[..n + 1]) == events[..n];
      DoneHandles(t, events, n + 1);
    } else {
      assert events[..n] == events;
    }
  }
}
