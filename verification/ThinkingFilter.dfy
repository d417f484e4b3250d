/** Streaming removal of the transport envelope from a thinking text, line by line. Which lines
    speak about the transport is a word list; here it is any predicate on trimmed lines. */
module ThinkingFilter {
  import opened Seqs
  import opened Spaces

  type Meta = string -> bool

  const FENCE := "```"

  // ----- Lines -----------------------------------------------------------------------------------

  predicate Marks(line: string) {
    FENCE <= Trim(line)
  }

  // The line is worth keeping outside a fence.
  predicate Genuine(meta: Meta, line: string) {
    !Marks(line) && Trim(line) != "" && !meta(Trim(line))
  }

  function FenceAfter(line: string, fence: bool): bool {
    if Marks(line) then !fence else fence
  }

  predicate Kept(meta: Meta, line: string, fence: bool) {
    !fence && Genuine(meta, line)
  }

  function LineEnd(s: string): nat {
    FirstIndex(s, '\n', 0)
  }

  // ----- A whole text ------------------------------------------------------------------------------

  // The kept ones of the complete lines, each with its line end.
  function Clean(meta: Meta, s: string, fence: bool): string
    decreases |s|
  {
    var n := LineEnd(s);
    if n == |s| then ""
    else Line(meta, s[..n], fence) + Clean(meta, s[n + 1..], FenceAfter(s[..n], fence))
  }

  function Line(meta: Meta, line: string, fence: bool): string {
    if Kept(meta, line, fence) then line + "\n" else ""
  }

  // What follows the last line end, and whether it stands in a fence.
  function Tail(s: string): string
    decreases |s|
  {
    var n := LineEnd(s);
    if n == |s| then s else Tail(s[n + 1..])
  }

  function FenceAt(s: string, fence: bool): bool
    decreases |s|
  {
    var n := LineEnd(s);
    if n == |s| then fence else FenceAt(s[n + 1..], FenceAfter(s[..n], fence))
  }

  // What is left at the end.
  function Rest(meta: Meta, s: string, fence: bool): string {
    if Kept(meta, Tail(s), FenceAt(s, fence)) then Tail(s) else ""
  }

  // Taking one line, or finding none.
  lemma OneLine(meta: Meta, s: string, fence: bool)
    ensures var n := LineEnd(s);
            && n <= |s|
            && Clean(meta, s, fence)
               == (if n == |s| then ""
                   else Line(meta, s[..n], fence) + Clean(meta, s[n + 1..], FenceAfter(s[..n], fence)))
            && Tail(s) == (if n == |s| then s else Tail(s[n + 1..]))
            && FenceAt(s, fence) == (if n == |s| then fence else FenceAt(s[n + 1..], FenceAfter(s[..n], fence)))
  {
  }

  // The first line of a text is the first line of every longer one.
  lemma LineOfLonger(a: string, b: string)
    requires LineEnd(a) < |a|
    ensures var n := LineEnd(a);
            && LineEnd(a + b) == n && (a + b)[..n] == a[..n] && (a + b)[n + 1..] == a[n + 1..] + b
  {
    FirstIndexStays(a, b, '\n');
    TakeWithin(a, b, LineEnd(a));
    DropWithin(a, b, LineEnd(a) + 1);
  }

  // Going on after `a` is going on from the line that `a` leaves open, in its fence.
  lemma {:induction false} CleanAppend(meta: Meta, a: string, b: string, fence: bool)
    ensures Clean(meta, a + b, fence) == Clean(meta, a, fence) + Clean(meta, Tail(a) + b, FenceAt(a, fence))
    ensures Tail(a + b) == Tail(Tail(a) + b)
    ensures FenceAt(a + b, fence) == FenceAt(Tail(a) + b, FenceAt(a, fence))
    decreases |a|
  {
    hide Clean, Tail, FenceAt, LineEnd, Line, FenceAfter;
    var n := LineEnd(a);
    OneLine(meta, a, fence);
    if n == |a| {
      ConcatEmpty(Clean(meta, a + b, fence));
    } else {
      var line, rest := a[..n], a[n + 1..];
      LineOfLonger(a, b);
      OneLine(meta, a + b, fence);
      var after := FenceAfter(line, fence);
      CleanAppend(meta, rest, b, after);
      ConcatAssociates(Line(meta, line, fence), Clean(meta, rest, after),
                       Clean(meta, Tail(rest) + b, FenceAt(rest, after)));
    }
  }

  // ----- The filter ----------------------------------------------------------------------------------

  method IndexLineEnd(s: string) returns (i: int)
    ensures i == if LineEnd(s) == |s| then -1 else LineEnd(s)
  {
    i := 0;
    while i < |s|
      invariant 0 <= i <= |s| && LineEnd(s) == FirstIndex(s, '\n', i)
    {
      if s[i] == '\n' {
        return;
      }
      i := i + 1;
    }
    return -1;
  }

  class ThinkingStreamFilter {
    const meta: Meta
    var inFence: bool
    var pending: string

    constructor (meta: Meta)
      ensures this.meta == meta && !inFence && pending == ""
    {
      this.meta, inFence, pending := meta, false, "";
    }

    method ConsumeLine(line: string) returns (kept: bool)
      modifies this`inFence
      ensures kept == Kept(meta, line, old(inFence)) && inFence == FenceAfter(line, old(inFence))
    {
      var trimmed := Trim(line);
      if FENCE <= trimmed {
        inFence := !inFence;
        return false;
      }
      if inFence || trimmed == "" {
        return false;
      }
      return !meta(trimmed);
    }

    method Feed(chunk: string) returns (out: string)
      modifies this
      ensures out == Clean(meta, old(pending) + chunk, old(inFence))
      ensures pending == Tail(old(pending) + chunk) && inFence == FenceAt(old(pending) + chunk, old(inFence))
    {
      hide Clean, Tail, FenceAt, FirstIndex, Kept, FenceAfter;
      pending := pending + chunk;
      var buffered := pending;
      ghost var all, fence := pending, inFence;
      out := "";
      ConcatEmpty(Clean(meta, all, fence));
      while true
        invariant out + Clean(meta, buffered, inFence) == Clean(meta, all, fence)
        invariant Tail(buffered) == Tail(all) && FenceAt(buffered, inFence) == FenceAt(all, fence)
        decreases |buffered|
      {
        OneLine(meta, buffered, inFence);
        var idx := IndexLineEnd(buffered);
        if idx < 0 {
          ConcatEmpty(out);
          break;
        }
        var line := buffered[..idx];
        ghost var before := inFence;
        ConcatAssociates(out, Line(meta, line, before), Clean(meta, buffered[idx + 1..], FenceAfter(line, before)));
        buffered := buffered[idx + 1..];
        var kept := ConsumeLine(line);
        if kept {
          out := out + (line + "\n");
        } else {
          ConcatEmpty(out);
        }
      }
      pending := buffered;
    }

    method Flush() returns (out: string)
      modifies this
      ensures pending == ""
      ensures out == if Kept(meta, old(pending), old(inFence)) then old(pending) else ""
      ensures inFence == FenceAfter(old(pending), old(inFence))
    {
      var line := pending;
      pending := "";
      var kept := ConsumeLine(line);
      return if kept then line else "";
    }
  }

  // ----- Chunks ---------------------------------------------------------------------------------------

  datatype Filter = Filter(fence: bool, pending: string)

  function After(chunks: seq<string>): Filter {
    if chunks == [] then Filter(false, "")
    else
      var f := After(Init(chunks));
      Filter(FenceAt(f.pending + Last(chunks), f.fence), Tail(f.pending + Last(chunks)))
  }

  // What a filter that is fed the chunks has put out.
  function Fed(meta: Meta, chunks: seq<string>): string {
    if chunks == [] then ""
    else
      var f := After(Init(chunks));
      Fed(meta, Init(chunks)) + Clean(meta, f.pending + Last(chunks), f.fence)
  }

  // However the text is cut, also within a fence mark, the outputs are those of one chunk, and so
  // is what a flush then adds.
  lemma {:induction false} ChunkingDoesNotMatter(meta: Meta, chunks: seq<string>)
    ensures var s := Concat(chunks);
            && Fed(meta, chunks) == Clean(meta, s, false)
            && After(chunks) == Filter(FenceAt(s, false), Tail(s))
  {
    if chunks != [] {
      hide Clean, FenceAt, Tail;
      ChunkingDoesNotMatter(meta, Init(chunks));
      ConcatSnoc(chunks);
      CleanAppend(meta, Concat(Init(chunks)), Last(chunks), false);
    }
  }

  // ----- The batch form -------------------------------------------------------------------------------

  function TrimLineEnds(s: string): string {
    if s != "" && Last(s) == '\n' then TrimLineEnds(Init(s)) else s
  }

  function Filtered(meta: Meta, s: string): string {
    TrimLineEnds(Clean(meta, s, false) + Rest(meta, s, false))
  }

  method FilterTransportThinking(meta: Meta, thinking: string) returns (out: string)
    ensures out == Filtered(meta, thinking)
  {
    ConcatEmpty(thinking);
    if thinking == "" {
      return "";
    }
    var f := new ThinkingStreamFilter(meta);
    var fed := f.Feed(thinking);
    var flushed := f.Flush();
    out := fed + flushed;
    ghost var all := out;
    while out != "" && out[|out| - 1] == '\n'
      invariant TrimLineEnds(out) == TrimLineEnds(all)
      decreases |out|
    {
      out := out[..|out| - 1];
    }
  }

  // Made of genuine lines only.
  predicate Pure(meta: Meta, s: string)
    decreases |s|
  {
    var n := LineEnd(s);
    if n == |s| then s == "" || Genuine(meta, s)
    else Genuine(meta, s[..n]) && Pure(meta, s[n + 1..])
  }

  lemma PureLine(meta: Meta, line: string, rest: string)
    requires Genuine(meta, line) && LineEnd(line) == |line| && Pure(meta, rest)
    ensures Pure(meta, (line + "\n") + rest)
  {
    var s := (line + "\n") + rest;
    FirstIndexIs(s, '\n', 0, |line|);
    assert s[..|line|] == line && s[|line| + 1..] == rest;
  }

  lemma LineIsLine(s: string)
    ensures var n := LineEnd(s); n <= |s| && LineEnd(s[..n]) == n
  {
    FirstIndexIs(s[..LineEnd(s)], '\n', 0, LineEnd(s));
  }

  lemma {:induction false} OutputIsPure(meta: Meta, s: string, fence: bool)
    ensures Pure(meta, Clean(meta, s, fence) + Rest(meta, s, fence))
    decreases |s|
  {
    var n := LineEnd(s);
    if n == |s| {
      ConcatEmpty(Rest(meta, s, fence));
      FirstIndexIs("", '\n', 0, 0);
    } else {
      var line, after := s[..n], FenceAfter(s[..n], fence);
      var clean, rest := Clean(meta, s[n + 1..], after), Rest(meta, s[n + 1..], after);
      OutputIsPure(meta, s[n + 1..], after);
      LineIsLine(s);
      ConcatAssociates(Line(meta, line, fence), clean, rest);
      hide Pure, FirstIndex, Genuine;
      if Kept(meta, line, fence) {
        PureLine(meta, line, clean + rest);
      } else {
        ConcatEmpty(clean);
      }
    }
  }

  lemma {:induction false} PurePasses(meta: Meta, s: string)
    requires Pure(meta, s)
    ensures Clean(meta, s, false) + Rest(meta, s, false) == s
    decreases |s|
  {
    var n := LineEnd(s);
    if n == |s| {
      ConcatEmpty(s);
    } else {
      var line, rest := s[..n], s[n + 1..];
      PurePasses(meta, rest);
      CutAround(s, n);
      ConcatAssociates(line + "\n", Clean(meta, rest, false), Rest(meta, rest, false));
      ConcatAssociates(line, "\n", rest);
    }
  }

  lemma {:induction false} PureWithoutEnd(meta: Meta, s: string)
    requires s != "" && Last(s) == '\n' && Pure(meta, s)
    ensures Pure(meta, Init(s))
    decreases |s|
  {
    var n, u := LineEnd(s), Init(s);
    if n < |s| - 1 {
      FirstIndexIs(u, '\n', 0, n);
      InitOfDrop(s, n + 1);
      TakeOfTake(s, n, |s| - 1);
      hide FirstIndex, Genuine;
      PureWithoutEnd(meta, s[n + 1..]);
    } else {
      LineIsLine(s);
      assert u == s[..n];
    }
  }

  lemma {:induction false} TrimmedIsPure(meta: Meta, s: string)
    requires Pure(meta, s)
    ensures Pure(meta, TrimLineEnds(s)) && TrimLineEnds(TrimLineEnds(s)) == TrimLineEnds(s)
  {
    if s != "" && Last(s) == '\n' {
      PureWithoutEnd(meta, s);
      TrimmedIsPure(meta, Init(s));
    }
  }

  // Filtering a filtered text changes nothing.
  lemma FilteringIsIdempotent(meta: Meta, s: string)
    ensures Filtered(meta, Filtered(meta, s)) == Filtered(meta, s)
  {
    OutputIsPure(meta, s, false);
    TrimmedIsPure(meta, Clean(meta, s, false) + Rest(meta, s, false));
    PurePasses(meta, Filtered(meta, s));
  }

  // ----- Line by line -----------------------------------------------------------------------------------

  predicate Backticks(line: string, n: nat) {
    n + 3 <= |line| && line[n..n + 3] == "```" && Blank(line[..n])
  }

  // Three backticks with nothing but white space before them.
  ghost predicate IsFence(line: string) {
    exists n: nat :: Backticks(line, n)
  }

  lemma MarksExactly(line: string)
    ensures Marks(line) <==> IsFence(line)
  {
    var lead, trail := TrimExactly(line);
    var t := Trim(line);
    if Marks(line) {
      assert line[|lead|..|lead| + 3] == t[..3];
      assert line[..|lead|] == lead;
      assert Backticks(line, |lead|);
    }
    if n: nat :| Backticks(line, n) {
      var mark := line[n..n + 3];
      assert mark[0] == line[n] && mark[2] == line[n + 2];
      TrimLeftSkips(line, n);
      TrimRightKeeps(line[n..], 2);
      assert line[n..][..3] == mark;
    }
  }

  ghost function Fences(lines: seq<string>): nat {
    if lines == [] then 0 else Fences(Init(lines)) + if IsFence(Last(lines)) then 1 else 0
  }

  ghost predicate InFence(lines: seq<string>) {
    Fences(lines) % 2 == 1
  }

  // The line stays behind these: an even number of them are fences, and it is neither a fence itself
  // nor blank nor about the transport.
  ghost predicate Stays(meta: Meta, earlier: seq<string>, line: string) {
    !InFence(earlier) && !IsFence(line) && !Blank(line) && !meta(Trim(line))
  }

  ghost function Staying(meta: Meta, lines: seq<string>): string {
    if lines == [] then ""
    else Staying(meta, Init(lines)) + if Stays(meta, Init(lines), Last(lines)) then Last(lines) + "\n" else ""
  }

  function Text(lines: seq<string>): string {
    if lines == [] then "" else Text(Init(lines)) + (Last(lines) + "\n")
  }

  predicate OneLines(lines: seq<string>) {
    forall i :: 0 <= i < |lines| ==> '\n' !in lines[i]
  }

  lemma KeptExactly(meta: Meta, earlier: seq<string>, line: string)
    ensures Kept(meta, line, InFence(earlier)) <==> Stays(meta, earlier, line)
    ensures FenceAfter(line, InFence(earlier)) <==> InFence(earlier + [line])
  {
    hide IsFence;
    assert Init(earlier + [line]) == earlier;
    MarksExactly(line);
    var _, _ := TrimExactly(line);
  }

  lemma OpenLine(meta: Meta, open: string, fence: bool)
    requires '\n' !in open
    ensures Clean(meta, open, fence) == "" && Tail(open) == open && FenceAt(open, fence) == fence
  {
    FirstIndexIs(open, '\n', 0, |open|);
  }

  lemma ClosedLine(meta: Meta, line: string, fence: bool)
    requires '\n' !in line
    ensures Clean(meta, line + "\n", fence) == (if Kept(meta, line, fence) then line + "\n" else "")
    ensures Tail(line + "\n") == "" && FenceAt(line + "\n", fence) == FenceAfter(line, fence)
  {
    var s := line + "\n";
    FirstIndexIs(s, '\n', 0, |line|);
    assert s[..|line|] == line && s[|line| + 1..] == "";
    hide Kept, FenceAfter;
    OneLine(meta, s, fence);
    OpenLine(meta, "", FenceAfter(line, fence));
    ConcatEmpty(Line(meta, line, fence));
  }

  lemma OneLineMore(meta: Meta, before: string, line: string, fence: bool)
    requires '\n' !in line && Tail(before) == "" && FenceAt(before, false) == fence
    ensures var s := before + (line + "\n");
            && Clean(meta, s, false)
               == Clean(meta, before, false) + (if Kept(meta, line, fence) then line + "\n" else "")
            && Tail(s) == "" && FenceAt(s, false) == FenceAfter(line, fence)
  {
    hide Clean, Tail, FenceAt, Kept, FenceAfter;
    CleanAppend(meta, before, line + "\n", false);
    ConcatEmpty(line + "\n");
    ClosedLine(meta, line, fence);
  }

  lemma {:induction false} LinesAreKept(meta: Meta, lines: seq<string>)
    requires OneLines(lines)
    ensures Clean(meta, Text(lines), false) == Staying(meta, lines)
    ensures Tail(Text(lines)) == "" && FenceAt(Text(lines), false) == InFence(lines)
    decreases |lines|
  {
    if lines == [] {
      OpenLine(meta, "", false);
    } else {
      hide Clean, Tail, FenceAt, Kept, FenceAfter, Stays, InFence;
      LinesAreKept(meta, Init(lines));
      InitLast(lines);
      OneLineMore(meta, Text(Init(lines)), Last(lines), InFence(Init(lines)));
      KeptExactly(meta, Init(lines), Last(lines));
    }
  }

  // A text of lines, the last of them open: the filter puts out the lines that stay, each with its
  // line end, and a flush adds the open one if it stays.
  lemma LinesThatStay(meta: Meta, lines: seq<string>, open: string)
    requires OneLines(lines) && '\n' !in open
    ensures var s := Text(lines) + open;
            && Clean(meta, s, false) == Staying(meta, lines) && Tail(s) == open
            && Rest(meta, s, false) == (if Stays(meta, lines, open) then open else "")
  {
    hide Clean, Tail, FenceAt, Kept, FenceAfter, Stays, InFence;
    LinesAreKept(meta, lines);
    CleanAppend(meta, Text(lines), open, false);
    ConcatEmpty(open);
    OpenLine(meta, open, InFence(lines));
    ConcatEmpty(Staying(meta, lines));
    KeptExactly(meta, lines, open);
  }

  // The batch form then takes off the line ends at the end, and nothing else.
  lemma {:induction false} OnlyLineEndsGo(s: string) returns (ends: string)
    ensures s == TrimLineEnds(s) + ends && (forall i :: 0 <= i < |ends| ==> ends[i] == '\n')
    ensures TrimLineEnds(s) == "" || Last(TrimLineEnds(s)) != '\n'
    decreases |s|
  {
    if s != "" && Last(s) == '\n' {
      ends := OnlyLineEndsGo(Init(s));
      ends := ends + "\n";
      InitLast(s);
    } else {
      ends := "";
    }
  }
}
