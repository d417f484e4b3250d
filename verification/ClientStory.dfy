/** What the caller of the event loop is told, as a story of the events alone: every chunk is said in
    terms of what arrived before it, without the loop's variables. */
module ClientStory {
  import opened Citations
  import opened ClientStream
  import opened Options
  import opened Seqs
  import opened Spaces

  // ----- The story ---------------------------------------------------------------------------------

  // All that has arrived so far: the messages, the text at the cursor, the last conversation id.
  datatype History = History(messages: seq<Message>, cursor: string, conversation: string)

  const EMPTY := History([], "", "")

  function Urls(messages: seq<Message>): seq<string> {
    if messages == [] then [] else Urls(Init(messages)) + Last(messages).images
  }

  // Each message asks for its tool call, then for its searches.
  function Requests(messages: seq<Message>): seq<ToolCall> {
    if messages == [] then []
    else
      var m := Last(messages);
      Requests(Init(messages)) + ((if m.tool.Some? then [m.tool.value] else []) + m.searches)
  }

  function Thoughts(messages: seq<Message>): string {
    if messages == [] then "" else Thoughts(Init(messages)) + Last(messages).thought
  }

  // The urls among `urls` that appear there for the first time; `earlier` came before.
  function Unseen(earlier: seq<string>, urls: seq<string>): seq<string> {
    if urls == [] then []
    else
      var url := Last(urls);
      Unseen(earlier, Init(urls)) + if url != "" && url !in earlier + Init(urls) then [url] else []
  }

  function Links(urls: seq<string>): string {
    if urls == [] then "" else Links(Init(urls)) + ("\n\n![image](" + Last(urls) + ")\n\n")
  }

  // A chunk with this text, unless it is empty.
  function Said(text: string): seq<Chunk> {
    if text == "" then [] else [Text(text)]
  }

  function OfMessage(before: seq<Message>, m: Message): seq<Chunk> {
    (if m.thought == "" then [] else [Thinking(m.thought)]) + Said(Links(Unseen(Urls(before), m.images)))
  }

  function OfMessages(before: seq<Message>, messages: seq<Message>): seq<Chunk> {
    if messages == [] then []
    else OfMessages(before, Init(messages)) + OfMessage(before + Init(messages), Last(messages))
  }

  // A snapshot says what it adds to the text told so far, if it continues it.
  function OfAnswer(told: string, answer: string): seq<Chunk> {
    var text := Strip(answer, false);
    if answer != "" && told <= text then Said(text[|told|..]) else []
  }

  // Text at the cursor says what it adds to the stripped text of all of it.
  function OfCursor(before: string, cursor: string): seq<Chunk> {
    StripGrows(before, cursor);
    Said(Strip(before + cursor, false)[|Strip(before, false)|..])
  }

  lemma StripGrows(before: string, cursor: string)
    ensures Strip(before, false) <= Strip(before + cursor, false)
    ensures Strip(before + cursor, false)[|Strip(before, false)|..] == Strip(cursor, Open(before, "") != "")
    ensures Open(before + cursor, "") == Open(cursor, Open(before, ""))
  {
    StripAppend(before, cursor, "");
  }

  function Extended(h: History, a: Arg): History {
    History(h.messages + a.messages, h.cursor + a.cursor,
            if a.conversation != "" then a.conversation else h.conversation)
  }

  function ExtendedAll(h: History, args: seq<Arg>): History {
    if args == [] then h else Extended(ExtendedAll(h, Init(args)), Last(args))
  }

  // The chunks told so far, and those that an argument adds.
  function TellArg(h: History, told: seq<Chunk>, a: Arg): seq<Chunk> {
    var told1 := told + OfMessages(h.messages, a.messages);
    var told2 := told1 + if a.messages == [] then [] else OfAnswer(TextOf(told1), Last(a.messages).answer);
    told2 + OfCursor(h.cursor, a.cursor)
  }

  function TellArgs(h: History, told: seq<Chunk>, args: seq<Arg>): seq<Chunk> {
    if args == [] then told
    else TellArg(ExtendedAll(h, Init(args)), TellArgs(h, told, Init(args)), Last(args))
  }

  function Happened(events: seq<Event>): History {
    if events == [] then EMPTY
    else
      var h := Happened(Init(events));
      match Last(events)
      case Update(args) => ExtendedAll(h, args)
      case Invocation(conversation, _) => if conversation != "" then h.(conversation := conversation) else h
      case _ => h
  }

  // What an event that ends the turn says last; None when it does not end it.
  function Ending(h: History, told: seq<Chunk>, e: Event): Option<seq<Chunk>> {
    var nothing := Blank(TextOf(told));
    match e
    case Invocation(_, failure) => if failure.Some? && nothing then Some([Failed(failure.value)]) else None
    case Completion =>
      var calls := Requests(h.messages);
      if nothing && calls == [] then Some([Failed("empty turn")])
      else Some([Final(h.conversation, calls, if calls == [] then "stop" else "tool_calls")])
    case ServerError(reason) => Some([Failed(reason)])
    case ReadError(reason) => Some([Failed(reason)])
    case Gone => Some([])
    case _ => None
  }

  // Everything said up to here, and whether the turn is over.
  function Story(events: seq<Event>): (seq<Chunk>, bool) {
    if events == [] then ([], false)
    else
      var (told, over) := Story(Init(events));
      var h := Happened(Init(events));
      if over then (told, true)
      else
        match Last(events)
        case Update(args) => (TellArgs(h, told, args), false)
        case e =>
          var ending := Ending(h, told, e);
          if ending.Some? then (told + ending.value, true) else (told, false)
  }

  // ----- The loop tells the story --------------------------------------------------------------------

  // What the loop has said of all that was to say: it ended at the first chunk it had no room for,
  // or it has said everything and counts on its text.
  ghost predicate Saying(t: Turn, told: seq<Chunk>) {
    if t.refused then t.done && t.room < |told| && t.out == told[..t.room]
    else !t.done && !t.gone && |told| <= t.room && t.out == told && t.acc == TextOf(told)
  }

  // What the loop knows of all that has arrived.
  ghost predicate Knows(t: Turn, h: History) {
    && t.calls == Requests(h.messages) && t.pending == Open(h.cursor, "") && t.conversation == h.conversation
    && forall url :: url in t.seen <==> url != "" && url in Urls(h.messages)
  }

  ghost predicate Tells(t: Turn, h: History, told: seq<Chunk>) {
    Saying(t, told) && (!t.refused ==> Knows(t, h))
  }

  lemma RefusedStays(t: Turn, told: seq<Chunk>, more: seq<Chunk>)
    requires Saying(t, told) && t.refused
    ensures Saying(t, told + more)
  {
    TakeWithin(told, more, t.room);
  }

  // Saying one chunk, with the text counted on if it is text.
  lemma SendSays(t: Turn, told: seq<Chunk>, c: Chunk)
    requires Saying(t, told) && !t.refused
    ensures var t1 := Send(if c.Text? then t.(acc := t.acc + c.text) else t, c);
            Saying(t1, told + [c]) && SameKnowledge(t, t1)
  {
    TextOfSnoc(told, c);
    hide TextOf;
    ConcatEmpty(TextOf(told));
    CutOfConcat(told, [c]);
  }

  predicate SameKnowledge(t: Turn, t1: Turn) {
    t1.calls == t.calls && t1.pending == t.pending && t1.conversation == t.conversation && t1.seen == t.seen
  }

  lemma WriteSays(t: Turn, told: seq<Chunk>, text: string)
    requires Saying(t, told) && !t.refused
    ensures Saying(Write(t, text), told + Said(text)) && SameKnowledge(t, Write(t, text))
  {
    hide Send, Saying;
    if text == "" {
      ConcatEmpty(told);
    } else {
      SendSays(t, told, Text(text));
    }
  }

  lemma ThinkSays(t: Turn, told: seq<Chunk>, thought: string)
    requires Saying(t, told) && !t.refused
    ensures var said := if thought == "" then [] else [Thinking(thought)];
            Saying(Think(t, thought), told + said) && SameKnowledge(t, Think(t, thought))
  {
    hide Send, Saying;
    if thought == "" {
      ConcatEmpty(told);
    } else {
      SendSays(t, told, Thinking(thought));
    }
  }

  // ----- Messages -----------------------------------------------------------------------------------

  // The loop's link text and set of urls are those of the urls unseen before.
  lemma {:induction false} NewImagesAreUnseen(earlier: seq<string>, urls: seq<string>, seen: set<string>)
    requires forall url :: url in seen <==> url != "" && url in earlier
    ensures NewImages(urls, seen).0 == Links(Unseen(earlier, urls))
    ensures forall url :: url in NewImages(urls, seen).1 <==> url != "" && url in earlier + urls
    decreases |urls|
  {
    if urls == [] {
      ConcatEmpty(earlier);
    } else {
      NewImagesAreUnseen(earlier, Init(urls), seen);
      UnseenSnoc(earlier, urls);
    }
  }

  lemma UnseenSnoc(earlier: seq<string>, urls: seq<string>)
    requires urls != []
    ensures var url := Last(urls);
            && (forall u :: u in earlier + urls <==> u in earlier + Init(urls) || u == url)
            && (url != "" && url !in earlier + Init(urls) ==>
                  Links(Unseen(earlier, urls)) == Links(Unseen(earlier, Init(urls))) + ImageLink(url))
            && (!(url != "" && url !in earlier + Init(urls)) ==> Unseen(earlier, urls) == Unseen(earlier, Init(urls)))
  {
    InitLast(urls);
    ConcatAssociates(earlier, Init(urls), [Last(urls)]);
    var before := Unseen(earlier, Init(urls));
    assert Init(before + [Last(urls)]) == before && Last(before + [Last(urls)]) == Last(urls);
    ConcatEmpty(before);
  }

  lemma HistorySnoc(before: seq<Message>, m: Message)
    ensures Urls(before + [m]) == Urls(before) + m.images
    ensures Requests(before + [m]) == Requests(before) + ((if m.tool.Some? then [m.tool.value] else []) + m.searches)
    ensures Thoughts(before + [m]) == Thoughts(before) + m.thought
  {
    assert Init(before + [m]) == before && Last(before + [m]) == m;
  }

  lemma MessageIsTold(t: Turn, h: History, told: seq<Chunk>, m: Message)
    requires Tells(t, h, told)
    ensures Tells(Read(t, m), h.(messages := h.messages + [m]), told + OfMessage(h.messages, m))
  {
    var thinking := if m.thought == "" then [] else [Thinking(m.thought)];
    var links := Links(Unseen(Urls(h.messages), m.images));
    ConcatAssociates(told, thinking, Said(links));
    if t.refused {
      RefusedStays(t, told, OfMessage(h.messages, m));
    } else {
      hide Think, Write, Saying, Unseen, Links, Said;
      var t1 := if m.tool.Some? then t.(calls := t.calls + [m.tool.value]) else t;
      SayingIgnores(t, t1, told);
      ThinkSays(t1, told, m.thought);
      var t2 := Think(t1, m.thought);
      if t2.refused {
        RefusedStays(t2, told + thinking, Said(links));
        RefusedIsDone(t2, told + thinking);
      } else {
        NotRefusedGoesOn(t2, told + thinking);
        LinksAreSaid(t2, h, told + thinking, m);
      }
    }
  }

  // Saying does not depend on what the loop knows.
  lemma SayingIgnores(t: Turn, t1: Turn, told: seq<Chunk>)
    requires Saying(t, told)
    requires t1 == t.(calls := t1.calls, seen := t1.seen, pending := t1.pending, conversation := t1.conversation)
    ensures Saying(t1, told)
  {
  }

  lemma RefusedIsDone(t: Turn, told: seq<Chunk>)
    requires Saying(t, told) && t.refused
    ensures t.done
  {
  }

  lemma NotRefusedGoesOn(t: Turn, told: seq<Chunk>)
    requires Saying(t, told) && !t.refused
    ensures !t.done && !t.gone && t.acc == TextOf(told)
  {
  }

  // The second half of reading a message: the images, then the searches.
  lemma LinksAreSaid(t: Turn, h: History, told: seq<Chunk>, m: Message)
    requires Saying(t, told) && !t.refused
    requires Knows(t.(calls := Requests(h.messages)), h)
    requires t.calls == Requests(h.messages) + if m.tool.Some? then [m.tool.value] else []
    ensures var t3 := Draw(t, m.images);
            var t4 := if t3.done then t3 else t3.(calls := t3.calls + m.searches);
            Tells(t4, h.(messages := h.messages + [m]), told + Said(Links(Unseen(Urls(h.messages), m.images))))
  {
    var links, seen := NewImages(m.images, t.seen).0, NewImages(m.images, t.seen).1;
    NewImagesAreUnseen(Urls(h.messages), m.images, t.seen);
    HistorySnoc(h.messages, m);
    hide Write, Saying, Unseen, Links, Said, NewImages, Requests, Urls;
    var t0 := t.(seen := seen);
    SayingIgnores(t, t0, told);
    WriteSays(t0, told, links);
    var t3 := Write(t0, links);
    var all := told + Said(links);
    if t3.refused {
      RefusedIsDone(t3, all);
    } else {
      NotRefusedGoesOn(t3, all);
      SayingIgnores(t3, t3.(calls := t3.calls + m.searches), all);
      ConcatAssociates(Requests(h.messages), if m.tool.Some? then [m.tool.value] else [], m.searches);
    }
  }

  lemma {:induction false} MessagesAreTold(t: Turn, h: History, told: seq<Chunk>, messages: seq<Message>)
    requires Tells(t, h, told)
    ensures Tells(ReadAll(t, messages), h.(messages := h.messages + messages), told + OfMessages(h.messages, messages))
    decreases |messages|
  {
    hide Tells, Read, OfMessage;
    if messages == [] {
      ConcatEmpty(told);
      ConcatEmpty(h.messages);
    } else {
      var before, m := Init(messages), Last(messages);
      var h1, told1 := h.(messages := h.messages + before), told + OfMessages(h.messages, before);
      MessagesAreTold(t, h, told, before);
      MessageIsTold(ReadAll(t, before), h1, told1, m);
      InitLast(messages);
      ConcatAssociates(h.messages, before, [m]);
      ConcatAssociates(told, OfMessages(h.messages, before), OfMessage(h.messages + before, m));
    }
  }

  // ----- Arguments ----------------------------------------------------------------------------------

  lemma AnswerIsTold(t: Turn, h: History, told: seq<Chunk>, answer: string)
    requires Tells(t, h, told)
    ensures Tells(Show(t, answer), h, told + OfAnswer(TextOf(told), answer))
  {
    var text := Strip(answer, false);
    if t.refused {
      RefusedStays(t, told, OfAnswer(TextOf(told), answer));
      RefusedIsDone(t, told);
    } else {
      NotRefusedGoesOn(t, told);
      hide Strip, Saying, Write, TextOf;
      ConcatEmpty(told);
      if answer != "" && t.acc <= text {
        WriteSays(t, told, text[|t.acc|..]);
      }
    }
  }

  lemma CursorIsTold(t: Turn, h: History, told: seq<Chunk>, cursor: string)
    requires Tells(t, h, told)
    ensures Tells(Point(t, cursor), h.(cursor := h.cursor + cursor), told + OfCursor(h.cursor, cursor))
  {
    if t.refused {
      RefusedStays(t, told, OfCursor(h.cursor, cursor));
      RefusedIsDone(t, told);
    } else {
      NotRefusedGoesOn(t, told);
      StripGrows(h.cursor, cursor);
      hide Strip, Open, Saying, Write;
      var t1 := t.(pending := Open(cursor, t.pending));
      SayingIgnores(t, t1, told);
      WriteSays(t1, told, Strip(cursor, t.pending != ""));
    }
  }

  lemma ConversationIsKnown(t: Turn, h: History, told: seq<Chunk>, conversation: string)
    requires Tells(t, h, told)
    ensures Tells(if conversation != "" && !t.refused then t.(conversation := conversation) else t,
                  h.(conversation := if conversation != "" then conversation else h.conversation), told)
    ensures t.refused <==> t.done
  {
  }

  lemma ArgIsTold(t: Turn, h: History, told: seq<Chunk>, a: Arg)
    requires Tells(t, h, told)
    ensures Tells(Apply(t, a), Extended(h, a), TellArg(h, told, a))
  {
    hide Tells, ReadAll, Show, Point, OfMessages, OfAnswer, OfCursor;
    ConversationIsKnown(t, h, told, a.conversation);
    var t1 := if a.conversation != "" && !t.done then t.(conversation := a.conversation) else t;
    var h1 := h.(conversation := if a.conversation != "" then a.conversation else h.conversation);
    MessagesAreTold(t1, h1, told, a.messages);
    var h2, told1 := h1.(messages := h.messages + a.messages), told + OfMessages(h.messages, a.messages);
    var t2 := ReadAll(t1, a.messages);
    if a.messages != [] {
      AnswerIsTold(t2, h2, told1, Last(a.messages).answer);
    } else {
      ConcatEmpty(told1);
    }
    var t3 := if a.messages == [] then t2 else Show(t2, Last(a.messages).answer);
    var told2 := told1 + if a.messages == [] then [] else OfAnswer(TextOf(told1), Last(a.messages).answer);
    CursorIsTold(t3, h2, told2, a.cursor);
    if t.done {
      DoneReadsNothing(t, a);
    }
  }

  // Once the loop has ended, nothing it reads changes anything.
  lemma {:induction false} DoneReadsAll(t: Turn, messages: seq<Message>)
    requires t.done
    ensures ReadAll(t, messages) == t
    decreases |messages|
  {
    if messages != [] {
      DoneReadsAll(t, Init(messages));
    }
  }

  lemma DoneReadsNothing(t: Turn, a: Arg)
    requires t.done
    ensures ReadAll(t, a.messages) == t && Show(t, if a.messages == [] then "" else Last(a.messages).answer) == t
    ensures Point(t, a.cursor) == t
  {
    DoneReadsAll(t, a.messages);
  }

  lemma {:induction false} ArgsAreTold(t: Turn, h: History, told: seq<Chunk>, args: seq<Arg>)
    requires Tells(t, h, told)
    ensures Tells(ApplyAll(t, args), ExtendedAll(h, args), TellArgs(h, told, args))
    decreases |args|
  {
    hide Tells, Apply, TellArg, Extended;
    if args != [] {
      ArgsAreTold(t, h, told, Init(args));
      ArgIsTold(ApplyAll(t, Init(args)), ExtendedAll(h, Init(args)), TellArgs(h, told, Init(args)), Last(args));
    }
  }

  // ----- The whole turn --------------------------------------------------------------------------------

  // The loop after all events: going on, or ended with everything said, or ended at the first
  // chunk that was not taken.
  ghost predicate ToldAll(t: Turn, events: seq<Event>) {
    var (told, over) := Story(events);
    if over && !t.refused then t.done && t.out == told && |told| <= t.room
    else Tells(t, Happened(events), told)
  }

  lemma EndingIsTold(t: Turn, h: History, told: seq<Chunk>, e: Event)
    requires Tells(t, h, told) && !t.refused && Ending(h, told, e).Some?
    ensures var t1, all := Handle(t, e), told + Ending(h, told, e).value;
            if t1.refused then Saying(t1, all) else t1.done && t1.out == all && |all| <= t1.room
  {
    hide TextOf, Requests, Open;
    CutOfConcat(told, Ending(h, told, e).value);
    ConcatEmpty(told);
  }

  lemma GoingOnIsTold(t: Turn, h: History, told: seq<Chunk>, e: Event)
    requires Tells(t, h, told) && !t.refused && !e.Update? && Ending(h, told, e).None?
    ensures var named := e.Invocation? && e.conversation != "";
            Tells(Handle(t, e), if named then h.(conversation := e.conversation) else h, told)
  {
    hide TextOf, Requests, Open;
  }

  lemma DoneHandlesNothing(t: Turn, e: Event)
    requires t.done
    ensures Handle(t, e) == t
  {
  }

  lemma EventIsTold(t: Turn, before: seq<Event>, e: Event)
    requires ToldAll(t, before)
    ensures ToldAll(Handle(t, e), before + [e])
  {
    hide Tells, Handle, Ending, TellArgs, ExtendedAll;
    assert Init(before + [e]) == before && Last(before + [e]) == e;
    var (told, over) := Story(before);
    var h := Happened(before);
    if over && !t.refused {
      DoneHandlesNothing(t, e);
    } else if t.refused {
      RefusedTells(t, h, told);
      DoneHandlesNothing(t, e);
      RefusedHearsMore(t, before, e);
    } else if e.Update? {
      TellsGoesOn(t, h, told);
      ArgsAreTold(t, h, told, e.args);
      UpdateIsHandled(t, e);
    } else if Ending(h, told, e).Some? {
      EndingIsTold(t, h, told, e);
      EndedTells(Handle(t, e), Happened(before + [e]), told + Ending(h, told, e).value);
    } else {
      GoingOnIsTold(t, h, told, e);
    }
  }

  lemma TellsGoesOn(t: Turn, h: History, told: seq<Chunk>)
    requires Tells(t, h, told) && !t.refused
    ensures !t.done
  {
  }

  lemma UpdateIsHandled(t: Turn, e: Event)
    requires !t.done && e.Update?
    ensures Handle(t, e) == ApplyAll(t, e.args)
  {
  }

  lemma RefusedTells(t: Turn, h: History, told: seq<Chunk>)
    requires Tells(t, h, told) && t.refused
    ensures t.done && Saying(t, told)
  {
  }

  lemma EndedTells(t: Turn, h: History, told: seq<Chunk>)
    requires if t.refused then Saying(t, told) else t.done
    ensures t.refused ==> Tells(t, h, told)
  {
  }

  // What has been said is never taken back.
  lemma {:induction false} ArgsSayMore(h: History, told: seq<Chunk>, args: seq<Arg>) returns (more: seq<Chunk>)
    ensures TellArgs(h, told, args) == told + more
    decreases |args|
  {
    hide OfMessages, OfAnswer, OfCursor;
    if args == [] {
      ConcatEmpty(told);
      more := [];
    } else {
      var first := ArgsSayMore(h, told, Init(args));
      var last := ArgSaysMore(ExtendedAll(h, Init(args)), told + first, Last(args));
      ConcatAssociates(told, first, last);
      more := first + last;
    }
  }

  lemma ArgSaysMore(h: History, told: seq<Chunk>, a: Arg) returns (more: seq<Chunk>)
    ensures TellArg(h, told, a) == told + more
  {
    hide OfMessages, OfAnswer, OfCursor;
    var told1 := told + OfMessages(h.messages, a.messages);
    var answer := if a.messages == [] then [] else OfAnswer(TextOf(told1), Last(a.messages).answer);
    more := OfMessages(h.messages, a.messages) + answer + OfCursor(h.cursor, a.cursor);
  }

  lemma RefusedHearsMore(t: Turn, before: seq<Event>, e: Event)
    requires t.refused && Saying(t, Story(before).0) && t.done
    ensures ToldAll(t, before + [e])
  {
    hide Ending, TellArgs, ExtendedAll, Saying;
    assert Init(before + [e]) == before && Last(before + [e]) == e;
    var (told, over) := Story(before);
    var h := Happened(before);
    if over {
    } else if e.Update? {
      var more := ArgsSayMore(h, told, e.args);
      RefusedStays(t, told, more);
    } else if Ending(h, told, e).Some? {
      RefusedStays(t, told, Ending(h, told, e).value);
    }
  }

  lemma {:induction false} EventsAreTold(room: nat, events: seq<Event>)
    ensures ToldAll(HandleAll(Fresh(room), events), events)
    decreases |events|
  {
    if events != [] {
      hide ToldAll, Handle;
      EventsAreTold(room, Init(events));
      EventIsTold(HandleAll(Fresh(room), Init(events)), Init(events), Last(events));
      InitLast(events);
    }
  }

  // Whatever arrives in whatever order, the caller gets the story of it, as far as it has room for
  // chunks: the thoughts and image links of every message, what snapshots and cursor add, and the
  // chunk that the ending event calls for.
  lemma CallerIsToldTheStory(room: nat, events: seq<Event>)
    ensures var t := HandleAll(Fresh(room), events);
            var (told, over) := Story(events);
            && t.out == (if |told| <= room then told else told[..room])
            && (t.refused <==> room < |told|)
            && (!t.refused ==> (t.done <==> over))
  {
    EventsAreTold(room, events);
    RoomStays(room, events);
  }

  lemma {:induction false} ReadKeepsRoom(t: Turn, messages: seq<Message>)
    ensures ReadAll(t, messages).room == t.room
    decreases |messages|
  {
    if messages != [] {
      ReadKeepsRoom(t, Init(messages));
    }
  }

  lemma ArgKeepsRoom(t: Turn, a: Arg)
    ensures Apply(t, a).room == t.room
  {
    hide Strip, Open, ReadAll, SnapshotDelta;
    ReadKeepsRoom(if a.conversation != "" then t.(conversation := a.conversation) else t, a.messages);
  }

  lemma {:induction false} ApplyKeepsRoom(t: Turn, args: seq<Arg>)
    ensures ApplyAll(t, args).room == t.room
    decreases |args|
  {
    if args != [] {
      hide Apply;
      ApplyKeepsRoom(t, Init(args));
      ArgKeepsRoom(ApplyAll(t, Init(args)), Last(args));
    }
  }

  lemma HandleKeepsRoom(t: Turn, e: Event)
    ensures Handle(t, e).room == t.room
  {
    if e.Update? {
      ApplyKeepsRoom(t, e.args);
    }
  }

  lemma {:induction false} RoomStays(room: nat, events: seq<Event>)
    ensures HandleAll(Fresh(room), events).room == room
    decreases |events|
  {
    if events != [] {
      hide Handle;
      RoomStays(room, Init(events));
      HandleKeepsRoom(HandleAll(Fresh(room), Init(events)), Last(events));
    }
  }

  // ----- What the story contains --------------------------------------------------------------------

  function ThinkingOf(out: seq<Chunk>): string {
    if out == [] then "" else ThinkingOf(Init(out)) + if Last(out).Thinking? then Last(out).text else ""
  }

  lemma {:induction false} ThinkingJoins(a: seq<Chunk>, b: seq<Chunk>)
    ensures ThinkingOf(a + b) == ThinkingOf(a) + ThinkingOf(b)
    decreases |b|
  {
    if b == [] {
      ConcatEmpty(a);
      ConcatEmpty(ThinkingOf(a));
    } else {
      InitLast(b);
      ConcatAssociates(a, Init(b), [Last(b)]);
      assert Init(a + b) == a + Init(b) && Last(a + b) == Last(b);
      ThinkingJoins(a, Init(b));
      ConcatAssociates(ThinkingOf(a), ThinkingOf(Init(b)), if Last(b).Thinking? then Last(b).text else "");
    }
  }

  lemma ThinkingOfOne(c: Chunk)
    ensures ThinkingOf([c]) == if c.Thinking? then c.text else ""
  {
    assert Init([c]) == [];
  }

  lemma SaidThinksNothing(text: string)
    ensures ThinkingOf(Said(text)) == ""
  {
    ThinkingOfOne(Text(text));
  }

  lemma {:induction false} MessagesThink(before: seq<Message>, messages: seq<Message>)
    ensures ThinkingOf(OfMessages(before, messages)) == Thoughts(messages)
    decreases |messages|
  {
    if messages != [] {
      hide Links, Unseen, Said;
      var earlier, m := before + Init(messages), Last(messages);
      var links := Links(Unseen(Urls(earlier), m.images));
      MessagesThink(before, Init(messages));
      ThinkingJoins(OfMessages(before, Init(messages)), OfMessage(earlier, m));
      ThinkingJoins(if m.thought == "" then [] else [Thinking(m.thought)], Said(links));
      ThinkingOfOne(Thinking(m.thought));
      SaidThinksNothing(links);
      ConcatEmpty(m.thought);
    }
  }

  lemma {:induction false} ThoughtsJoin(a: seq<Message>, b: seq<Message>)
    ensures Thoughts(a + b) == Thoughts(a) + Thoughts(b)
    decreases |b|
  {
    if b == [] {
      ConcatEmpty(a);
      ConcatEmpty(Thoughts(a));
    } else {
      assert Init(a + b) == a + Init(b) && Last(a + b) == Last(b);
      ThoughtsJoin(a, Init(b));
      ConcatAssociates(Thoughts(a), Thoughts(Init(b)), Last(b).thought);
    }
  }

  lemma ArgThinks(h: History, told: seq<Chunk>, a: Arg)
    requires ThinkingOf(told) == Thoughts(h.messages)
    ensures ThinkingOf(TellArg(h, told, a)) == Thoughts(h.messages + a.messages)
  {
    hide OfMessages, Said, Strip;
    var told1 := told + OfMessages(h.messages, a.messages);
    var answer := if a.messages == [] then [] else OfAnswer(TextOf(told1), Last(a.messages).answer);
    ThinkingJoins(told, OfMessages(h.messages, a.messages));
    MessagesThink(h.messages, a.messages);
    ThoughtsJoin(h.messages, a.messages);
    ThinkingJoins(told1, answer);
    ThinkingJoins(told1 + answer, OfCursor(h.cursor, a.cursor));
    AnswerThinksNothing(TextOf(told1), if a.messages == [] then "" else Last(a.messages).answer);
    StripGrows(h.cursor, a.cursor);
    SaidThinksNothing(Strip(h.cursor + a.cursor, false)[|Strip(h.cursor, false)|..]);
    ConcatEmpty(ThinkingOf(told1));
  }

  lemma AnswerThinksNothing(told: string, answer: string)
    ensures ThinkingOf(OfAnswer(told, answer)) == ""
  {
    if told <= Strip(answer, false) {
      SaidThinksNothing(Strip(answer, false)[|told|..]);
    }
  }

  lemma {:induction false} ArgsThink(h: History, told: seq<Chunk>, args: seq<Arg>)
    requires ThinkingOf(told) == Thoughts(h.messages)
    ensures ThinkingOf(TellArgs(h, told, args)) == Thoughts(ExtendedAll(h, args).messages)
    decreases |args|
  {
    if args != [] {
      hide TellArg;
      ArgsThink(h, told, Init(args));
      ArgThinks(ExtendedAll(h, Init(args)), TellArgs(h, told, Init(args)), Last(args));
    }
  }

  // While the turn goes on the thinking said so far is that of the messages.
  lemma {:induction false} StoryThinks(events: seq<Event>)
    requires !Story(events).1
    ensures ThinkingOf(Story(events).0) == Thoughts(Happened(events).messages)
    decreases |events|
  {
    if events != [] {
      hide Ending, TellArgs, ExtendedAll;
      StoryThinks(Init(events));
      if Last(events).Update? {
        ArgsThink(Happened(Init(events)), Story(Init(events)).0, Last(events).args);
      }
    }
  }

  // Where the turn ended: the story before, and what the ending event says.
  lemma {:induction false} WhereItEnded(events: seq<Event>) returns (n: nat)
    requires Story(events).1
    ensures n < |events| && !Story(events[..n]).1
    ensures var ending := Ending(Happened(events[..n]), Story(events[..n]).0, events[n]);
            ending.Some? && Story(events).0 == Story(events[..n]).0 + ending.value
    decreases |events|
  {
    hide Ending, TellArgs;
    var before := Init(events);
    if Story(before).1 {
      n := WhereItEnded(before);
      TakeOfTake(events, n, |events| - 1);
    } else {
      n := |events| - 1;
    }
  }

  // A turn that ends with a final chunk ended at a completion, and by then: its calls are the tool
  // calls and searches of all messages received, in order; its finish says whether there are any;
  // the conversation is the last one named; the thinking chunks join to the thoughts received.
  lemma FinalChunkTellsAll(room: nat, events: seq<Event>) returns (n: nat)
    requires var out := HandleAll(Fresh(room), events).out; out != [] && Last(out).Final?
    ensures n < |events| && events[n] == Completion
    ensures var out, h := HandleAll(Fresh(room), events).out, Happened(events[..n]);
            && Last(out).calls == Requests(h.messages) && Last(out).conversation == h.conversation
            && Last(out).finish == (if Requests(h.messages) == [] then "stop" else "tool_calls")
            && ThinkingOf(out) == Thoughts(h.messages)
  {
    hide Story, Happened, Handle;
    CallerIsToldTheStory(room, events);
    EmittedTextIsTheAnswer(room, events);
    n := WhereItEnded(events);
    StoryThinks(events[..n]);
    var told := Story(events[..n]).0;
    var ending := Ending(Happened(events[..n]), told, events[n]).value;
    EndingSpeaksLast(Happened(events[..n]), told, events[n]);
    ThinkingJoins(told, ending);
    ConcatEmpty(told);
    ConcatEmpty(ThinkingOf(told));
    NothingFinalBefore(events[..n]);
  }

  // While the turn goes on nothing final has been said.
  lemma NothingFinalBefore(events: seq<Event>)
    requires !Story(events).1
    ensures Story(events).0 != [] ==> !Terminal(Last(Story(events).0))
  {
    hide Story, HandleAll;
    CallerIsToldTheStory(|Story(events).0|, events);
    EmittedTextIsTheAnswer(|Story(events).0|, events);
  }

  lemma EndingSpeaksLast(h: History, told: seq<Chunk>, e: Event)
    requires Ending(h, told, e).Some?
    ensures var ending := Ending(h, told, e).value;
            && |ending| <= 1 && (ending == [] ==> e == Gone)
            && (ending != [] ==> Last(told + ending) == ending[0] && Terminal(ending[0]) && ThinkingOf(ending) == "")
            && (ending != [] && ending[0].Final? ==>
                  e == Completion
                  && ending[0] == Final(h.conversation, Requests(h.messages),
                                        if Requests(h.messages) == [] then "stop" else "tool_calls"))
  {
    hide TextOf, Requests;
    var ending := Ending(h, told, e).value;
    if ending != [] {
      ThinkingOfOne(ending[0]);
    }
  }

  // ----- Every image once --------------------------------------------------------------------------------

  // The urls linked for the messages, message by message.
  function Linked(messages: seq<Message>): seq<string> {
    if messages == [] then []
    else Linked(Init(messages)) + Unseen(Urls(Init(messages)), Last(messages).images)
  }

  lemma {:induction false} UnseenIsNew(earlier: seq<string>, urls: seq<string>)
    ensures Distinct(Unseen(earlier, urls))
    ensures forall url :: url in Unseen(earlier, urls) <==> url != "" && url in urls && url !in earlier
    decreases |urls|
  {
    if urls != [] {
      var url, before := Last(urls), Unseen(earlier, Init(urls));
      UnseenIsNew(earlier, Init(urls));
      InitLast(urls);
      forall u ensures u in urls <==> u in Init(urls) || u == url {
        assert u in Init(urls) + [url] <==> u in Init(urls) || u == url;
      }
      if url != "" && url !in earlier + Init(urls) {
        assert url !in Init(urls);
        DistinctTogether(before, [url]);
      }
      ConcatEmpty(before);
    }
  }

  // Every url that is not empty is linked exactly once, by the message in which it first appears.
  lemma {:induction false} EveryImageIsLinkedOnce(messages: seq<Message>)
    ensures Distinct(Linked(messages))
    ensures forall url :: url in Linked(messages) <==> url != "" && url in Urls(messages)
    decreases |messages|
  {
    if messages != [] {
      hide Distinct, Unseen;
      EveryImageIsLinkedOnce(Init(messages));
      UnseenIsNew(Urls(Init(messages)), Last(messages).images);
      DistinctTogether(Linked(Init(messages)), Unseen(Urls(Init(messages)), Last(messages).images));
    }
  }
}
