/** The event loop that turns an upstream turn into chunks. Text reaches the caller three ways:
    snapshots of the whole answer, text at the cursor, and generated images. */
module ClientStream {
  import opened Citations
  import opened Options
  import opened Seqs
  import opened Spaces

  datatype ToolCall = ToolCall(id: string, name: string, arguments: string)

  datatype Chunk =
    | Text(text: string)
    | Thinking(text: string)
    | Final(conversation: string, calls: seq<ToolCall>, finish: string)
    | Failed(reason: string)

  // A message of an update, as its type lets the loop read it: at most a tool call, a thought or
  // image links, search queries, and the text of an answer. Empty texts are absent ones.
  datatype Message = Message(
    tool: Option<ToolCall>, thought: string, images: seq<string>, searches: seq<ToolCall>, answer: string)

  datatype Arg = Arg(conversation: string, messages: seq<Message>, cursor: string)

  datatype Event =
    | Update(args: seq<Arg>)
    | Invocation(conversation: string, failure: Option<string>)
    | Completion
    | ServerError(reason: string)
    | ReadError(reason: string)
    | Gone
    | Other

  // `room` is how many chunks the caller takes before it goes away; a chunk that is not taken ends
  // the loop.
  datatype Turn = Turn(
    acc: string, calls: seq<ToolCall>, seen: set<string>, pending: string, conversation: string,
    out: seq<Chunk>, room: nat, refused: bool, gone: bool, done: bool)

  function Fresh(room: nat): Turn {
    Turn("", [], {}, "", "", [], room, false, false, false)
  }

  // ----- The specification -----------------------------------------------------------------------------

  function Send(t: Turn, chunk: Chunk): Turn {
    if |t.out| < t.room then t.(out := t.out + [chunk]) else t.(refused := true, done := true)
  }

  function Finish(t: Turn, chunk: Chunk): Turn {
    Send(t, chunk).(done := true)
  }

  function Write(t: Turn, text: string): Turn {
    if text == "" then t else Send(t.(acc := t.acc + text), Text(text))
  }

  function ImageLink(url: string): string {
    "\n\n![image](" + url + ")\n\n"
  }

  // Links for the images not seen before, and all that have been seen then.
  function NewImages(urls: seq<string>, seen: set<string>): (string, set<string>) {
    if urls == [] then ("", seen)
    else
      var (links, seen1) := NewImages(Init(urls), seen);
      if Last(urls) == "" || Last(urls) in seen1 then (links, seen1)
      else (links + ImageLink(Last(urls)), seen1 + {Last(urls)})
  }

  function Think(t: Turn, thought: string): Turn {
    if thought == "" then t else Send(t, Thinking(thought))
  }

  function Draw(t: Turn, urls: seq<string>): Turn {
    var (links, seen) := NewImages(urls, t.seen);
    Write(t.(seen := seen), links)
  }

  function Read(t: Turn, m: Message): Turn {
    if t.done then t
    else
      var t1 := if m.tool.Some? then t.(calls := t.calls + [m.tool.value]) else t;
      var t2 := Think(t1, m.thought);
      if t2.done then t2
      else
        var t3 := Draw(t2, m.images);
        if t3.done then t3 else t3.(calls := t3.calls + m.searches)
  }

  function ReadAll(t: Turn, messages: seq<Message>): Turn {
    if messages == [] then t else Read(ReadAll(t, Init(messages)), Last(messages))
  }

  // What a snapshot adds to the text; nothing when it does not continue it.
  function SnapshotDelta(emitted: string, snapshot: string): Option<string> {
    if snapshot == emitted then None
    else if emitted <= snapshot then Some(snapshot[|emitted|..])
    else None
  }

  function Show(t: Turn, answer: string): Turn {
    if t.done || answer == "" then t
    else
      var delta := SnapshotDelta(t.acc, Strip(answer, false));
      if delta.Some? then Write(t, delta.value) else t
  }

  function Point(t: Turn, cursor: string): Turn {
    if t.done then t
    else Write(t.(pending := Open(cursor, t.pending)), Strip(cursor, t.pending != ""))
  }

  function Apply(t: Turn, a: Arg): Turn {
    if t.done then t
    else
      var t1 := if a.conversation != "" then t.(conversation := a.conversation) else t;
      var t2 := ReadAll(t1, a.messages);
      var t3 := if a.messages == [] then t2 else Show(t2, Last(a.messages).answer);
      Point(t3, a.cursor)
  }

  function ApplyAll(t: Turn, args: seq<Arg>): Turn {
    if args == [] then t else Apply(ApplyAll(t, Init(args)), Last(args))
  }

  function Handle(t: Turn, e: Event): Turn {
    if t.done then t
    else
      match e
      case Update(args) => ApplyAll(t, args)
      case Invocation(conversation, failure) =>
        var t1 := if conversation != "" then t.(conversation := conversation) else t;
        if failure.Some? && Blank(t1.acc) then Finish(t1, Failed(failure.value)) else t1
      case Completion =>
        var t1 := t.(pending := "");
        if Blank(t1.acc) && t1.calls == [] then Finish(t1, Failed("empty turn"))
        else Finish(t1, Final(t1.conversation, t1.calls, if t1.calls != [] then "tool_calls" else "stop"))
      case ServerError(reason) => Finish(t, Failed(reason))
      case ReadError(reason) => Finish(t, Failed(reason))
      case Gone => t.(gone := true, done := true)
      case Other => t
  }

  function HandleAll(t: Turn, events: seq<Event>): Turn {
    if events == [] then t else Handle(HandleAll(t, Init(events)), Last(events))
  }

  // ----- What every run keeps ------------------------------------------------------------------------------

  function TextOf(out: seq<Chunk>): string {
    if out == [] then "" else TextOf(Init(out)) + if Last(out).Text? then Last(out).text else ""
  }

  predicate Terminal(c: Chunk) {
    c.Final? || c.Failed?
  }

  // Everything emitted so far joins to the text the loop counts on; the chunk the caller did not
  // take is missing. A terminal chunk stands last, and exactly the runs that finished by
  // themselves have one; the final one comes with some text or a tool call.
  ghost predicate Kept(t: Turn) {
    && |t.out| <= t.room && Holdable(t.pending)
    && (if t.refused then TextOf(t.out) <= t.acc else TextOf(t.out) == t.acc)
    && (t.refused || t.gone ==> t.done)
    && (t.done && !t.refused && !t.gone ==> t.out != [] && Terminal(Last(t.out)))
    && (t.out != [] && Last(t.out).Final? ==> !Blank(t.acc) || Last(t.out).calls != [])
    && (forall i :: 0 <= i < |t.out| && Terminal(t.out[i]) ==> i == |t.out| - 1 && t.done && !t.refused)
  }

  lemma TextOfSnoc(out: seq<Chunk>, c: Chunk)
    ensures TextOf(out + [c]) == TextOf(out) + if c.Text? then c.text else ""
  {
    assert Init(out + [c]) == out && Last(out + [c]) == c;
  }

  lemma SendKeeps(t: Turn, c: Chunk)
    requires Kept(t) && !t.done && !c.Text? && (c.Final? ==> !Blank(t.acc) || c.calls != [])
    ensures Terminal(c) ==> Kept(Finish(t, c))
    ensures !Terminal(c) ==> Kept(Send(t, c))
    ensures t.out <= Send(t, c).out && (!Send(t, c).refused ==> Send(t, c).out == t.out + [c])
  {
    TextOfSnoc(t.out, c);
    ConcatEmpty(TextOf(t.out));
  }

  lemma WriteKeeps(t: Turn, text: string)
    requires Kept(t) && !t.done
    ensures Kept(Write(t, text)) && t.out <= Write(t, text).out
  {
    TextOfSnoc(t.out, Text(text));
  }

  lemma ThinkKeeps(t: Turn, thought: string)
    requires Kept(t) && !t.done
    ensures Kept(Think(t, thought)) && t.out <= Think(t, thought).out
  {
    SendKeeps(t, Thinking(thought));
  }

  lemma DrawKeeps(t: Turn, urls: seq<string>)
    requires Kept(t) && !t.done
    ensures Kept(Draw(t, urls)) && t.out <= Draw(t, urls).out
  {
    hide Write;
    var (links, seen) := NewImages(urls, t.seen);
    WriteKeeps(t.(seen := seen), links);
  }

  lemma BookKeeps(t: Turn, calls: seq<ToolCall>)
    requires Kept(t)
    ensures Kept(t.(calls := calls))
  {
  }

  lemma ReadKeeps(t: Turn, m: Message)
    requires Kept(t)
    ensures Kept(Read(t, m)) && t.out <= Read(t, m).out
  {
    hide Think, Draw, Kept;
    if !t.done {
      var t1 := if m.tool.Some? then t.(calls := t.calls + [m.tool.value]) else t;
      BookKeeps(t, t.calls + if m.tool.Some? then [m.tool.value] else []);
      ThinkKeeps(t1, m.thought);
      var t2 := Think(t1, m.thought);
      if !t2.done {
        DrawKeeps(t2, m.images);
        var t3 := Draw(t2, m.images);
        BookKeeps(t3, t3.calls + m.searches);
      }
    }
  }

  lemma {:induction false} ReadAllKeeps(t: Turn, messages: seq<Message>)
    requires Kept(t)
    ensures Kept(ReadAll(t, messages)) && t.out <= ReadAll(t, messages).out
  {
    if messages != [] {
      hide Kept, Read;
      ReadAllKeeps(t, Init(messages));
      ReadKeeps(ReadAll(t, Init(messages)), Last(messages));
    }
  }

  lemma ShowKeeps(t: Turn, answer: string)
    requires Kept(t)
    ensures Kept(Show(t, answer)) && t.out <= Show(t, answer).out
  {
    hide Kept, Write, Strip, SnapshotDelta;
    if !t.done && answer != "" {
      var delta := SnapshotDelta(t.acc, Strip(answer, false));
      if delta.Some? {
        WriteKeeps(t, delta.value);
      }
    }
  }

  lemma PointKeeps(t: Turn, cursor: string)
    requires Kept(t)
    ensures Kept(Point(t, cursor)) && t.out <= Point(t, cursor).out
  {
    if !t.done {
      StripAppend(cursor, "", t.pending);
      assert Kept(t.(pending := Open(cursor, t.pending)));
      hide Write, Kept, Strip;
      WriteKeeps(t.(pending := Open(cursor, t.pending)), Strip(cursor, t.pending != ""));
    }
  }

  lemma ApplyKeeps(t: Turn, a: Arg)
    requires Kept(t)
    ensures Kept(Apply(t, a)) && t.out <= Apply(t, a).out
  {
    if !t.done {
      var t1 := if a.conversation != "" then t.(conversation := a.conversation) else t;
      assert Kept(t1);
      hide Kept, ReadAll, Show, Point;
      ReadAllKeeps(t1, a.messages);
      var t2 := ReadAll(t1, a.messages);
      if a.messages != [] {
        ShowKeeps(t2, Last(a.messages).answer);
      }
      PointKeeps(if a.messages == [] then t2 else Show(t2, Last(a.messages).answer), a.cursor);
    }
  }

  lemma {:induction false} ApplyAllKeeps(t: Turn, args: seq<Arg>)
    requires Kept(t)
    ensures Kept(ApplyAll(t, args)) && t.out <= ApplyAll(t, args).out
  {
    if args != [] {
      hide Kept, Apply;
      ApplyAllKeeps(t, Init(args));
      ApplyKeeps(ApplyAll(t, Init(args)), Last(args));
    }
  }

  lemma HandleKeeps(t: Turn, e: Event)
    requires Kept(t)
    ensures Kept(Handle(t, e)) && t.out <= Handle(t, e).out
  {
    if !t.done {
      match e
      case Update(args) => ApplyAllKeeps(t, args);
      case Invocation(conversation, failure) =>
        var t1 := if conversation != "" then t.(conversation := conversation) else t;
        if failure.Some? {
          SendKeeps(t1, Failed(failure.value));
        }
      case Completion =>
        var t1 := t.(pending := "");
        var finish := if t1.calls != [] then "tool_calls" else "stop";
        SendKeeps(t1, if Blank(t1.acc) && t1.calls == [] then Failed("empty turn")
                      else Final(t1.conversation, t1.calls, finish));
      case ServerError(reason) => SendKeeps(t, Failed(reason));
      case ReadError(reason) => SendKeeps(t, Failed(reason));
      case Gone =>
      case Other =>
    }
  }

  // For any mix of snapshots, cursor text and images, at every moment: what was emitted joins to
  // the text the loop counts on, nothing emitted is taken back, and a terminal chunk is the last.
  lemma {:induction false} EmittedTextIsTheAnswer(room: nat, events: seq<Event>)
    ensures var t := HandleAll(Fresh(room), events);
            && Kept(t) && (!t.refused ==> TextOf(t.out) == t.acc)
            && (events != [] ==> HandleAll(Fresh(room), Init(events)).out <= t.out)
  {
    if events != [] {
      hide Handle;
      EmittedTextIsTheAnswer(room, Init(events));
      HandleKeeps(HandleAll(Fresh(room), Init(events)), Last(events));
    }
  }

  // Every run that was neither refused nor abandoned ends with exactly one terminal chunk.
  lemma OneTerminalChunkLast(room: nat, events: seq<Event>)
    ensures var t := HandleAll(Fresh(room), events);
            t.done && !t.refused && !t.gone ==>
              && t.out != [] && Terminal(Last(t.out))
              && forall i :: 0 <= i < |t.out| - 1 ==> !Terminal(t.out[i])
  {
    EmittedTextIsTheAnswer(room, events);
  }

  // ----- Snapshots alone, cursor text alone ------------------------------------------------------------------

  function AnswerOf(a: Arg): string {
    if a.messages == [] then "" else Last(a.messages).answer
  }

  // The argument brings no text but the answer of its last message.
  ghost predicate SnapshotOnly(a: Arg) {
    a.cursor == "" && a.messages != [] && forall i :: 0 <= i < |a.messages| ==> a.messages[i].images == []
  }

  lemma {:induction false} ReadingKeepsText(t: Turn, messages: seq<Message>)
    requires forall i :: 0 <= i < |messages| ==> messages[i].images == []
    ensures ReadAll(t, messages).acc == t.acc && ReadAll(t, messages).pending == t.pending
    ensures (t.done <==> t.refused) ==> (ReadAll(t, messages).done <==> ReadAll(t, messages).refused)
    decreases |messages|
  {
    if messages != [] {
      ReadingKeepsText(t, Init(messages));
      assert Last(messages).images == [];
    }
  }

  lemma SnapshotReplaces(t: Turn, a: Arg)
    requires SnapshotOnly(a) && !t.done && !t.refused && t.pending == "" && t.acc <= Strip(AnswerOf(a), false)
    ensures var t1 := Apply(t, a);
            && (t1.done <==> t1.refused) && t1.pending == ""
            && (!t1.refused ==> t1.acc == Strip(AnswerOf(a), false))
  {
    var t1 := if a.conversation != "" then t.(conversation := a.conversation) else t;
    ReadingKeepsText(t1, a.messages);
    hide ReadAll;
    CutPrefix(t.acc, Strip(AnswerOf(a), false));
  }

  ghost predicate Growing(args: seq<Arg>) {
    && (forall i :: 0 <= i < |args| ==> SnapshotOnly(args[i]))
    && (forall i, j :: 0 <= i < j < |args| ==> AnswerOf(args[i]) <= AnswerOf(args[j]))
  }

  lemma GrowingInit(args: seq<Arg>)
    requires Growing(args) && args != []
    ensures Growing(Init(args)) && SnapshotOnly(Last(args))
    ensures |args| > 1 ==> AnswerOf(Last(Init(args))) <= AnswerOf(Last(args))
  {
    hide SnapshotOnly, AnswerOf;
    var n := |args| - 1;
    assert forall i :: 0 <= i < n ==> Init(args)[i] == args[i];
    assert SnapshotOnly(args[n]);
    if n > 0 {
      assert AnswerOf(args[n - 1]) <= AnswerOf(args[n]);
    }
  }

  lemma DoneStays(t: Turn, a: Arg)
    requires t.done
    ensures Apply(t, a) == t
  {
  }

  // Snapshots that each continue the one before leave the stripped text of the last one.
  lemma {:induction false} SnapshotsLeaveTheLast(room: nat, args: seq<Arg>)
    requires Growing(args)
    ensures var t := ApplyAll(Fresh(room), args);
            && t.pending == "" && (t.done <==> t.refused)
            && (!t.refused ==> t.acc == if args == [] then "" else Strip(AnswerOf(Last(args)), false))
    decreases |args|
  {
    if args != [] {
      hide Apply, SnapshotOnly, AnswerOf, Strip, Growing;
      GrowingInit(args);
      SnapshotsLeaveTheLast(room, Init(args));
      var t := ApplyAll(Fresh(room), Init(args));
      if t.done {
        DoneStays(t, Last(args));
      } else {
        if |args| > 1 {
          StripIsMonotone(AnswerOf(Last(Init(args))), AnswerOf(Last(args)));
        }
        SnapshotReplaces(t, Last(args));
      }
    }
  }

  // Text that arrives at the cursor alone leaves the stripped text of all of it.
  lemma {:induction false} CursorTextIsStripped(room: nat, cursors: seq<string>)
    ensures var t := ApplyAll(Fresh(room), seq(|cursors|, i requires 0 <= i < |cursors| => Arg("", [], cursors[i])));
            && (t.done <==> t.refused)
            && (!t.refused ==> t.acc == Strip(Concat(cursors), false) && t.pending == Open(Concat(cursors), ""))
    decreases |cursors|
  {
    var args := seq(|cursors|, i requires 0 <= i < |cursors| => Arg("", [], cursors[i]));
    if cursors != [] {
      var before := Init(cursors);
      CursorTextIsStripped(room, before);
      assert Init(args) == seq(|before|, i requires 0 <= i < |before| => Arg("", [], before[i]));
      ConcatSnoc(cursors);
      StripAppend(Concat(before), Last(cursors), "");
      ConcatEmpty(Strip(Concat(before), false));
      var t := ApplyAll(Fresh(room), Init(args));
      assert Last(args) == Arg("", [], Last(cursors));
      hide Strip, Open;
    }
  }
}
