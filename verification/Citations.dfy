/** Citation runs in answer text: from a start delimiter to the next end delimiter, both in the
    Private Use Area. They are removed from a stream without taking anything back. */
module Citations {
  import opened Seqs

  const START: char := '\U{E200}'
  const END: char := '\U{E201}'

  // ----- One pass, one character at a time ----------------------------------------------------------

  // What is left of a text read from outside a run, or from inside one.
  function Strip(s: string, inside: bool): string {
    if s == "" then ""
    else if inside then Strip(s[1..], s[0] != END)
    else if s[0] == START then Strip(s[1..], true)
    else [s[0]] + Strip(s[1..], false)
  }

  // The run that is still open at the end, if there is one.
  function Open(s: string, run: string): string
    decreases |s|
  {
    if s == "" then run
    else if run != "" then Open(s[1..], if s[0] == END then "" else run + [s[0]])
    else Open(s[1..], if s[0] == START then [START] else "")
  }

  // What the filter may hold: nothing, or a run without its end.
  predicate Holdable(pending: string) {
    pending != "" ==> pending[0] == START && END !in pending
  }

  lemma {:induction false} StripAppend(a: string, b: string, run: string)
    requires Holdable(run)
    ensures Strip(a + b, run != "") == Strip(a, run != "") + Strip(b, Open(a, run) != "")
    ensures Open(a + b, run) == Open(b, Open(a, run)) && Holdable(Open(a, run))
    decreases |a|
  {
    if a == "" {
      ConcatEmpty(b);
    } else {
      TailOfConcat(a, b);
      var run1 := if run != "" then (if a[0] == END then "" else run + [a[0]])
                  else if a[0] == START then [START] else "";
      StripAppend(a[1..], b, run1);
      if run == "" && a[0] != START {
        ConcatAssociates([a[0]], Strip(a[1..], false), Strip(b, Open(a[1..], "") != ""));
      }
    }
  }

  // A held run, read again, yields nothing and is held.
  lemma {:induction false} RunIsHeld(more: string, run: string)
    requires run != "" && END !in more
    ensures Strip(more, true) == "" && Open(more, run) == run + more
    decreases |more|
  {
    if more == "" {
      ConcatEmpty(run);
    } else {
      HeadTail(more);
      assert more[0] in more;
      RunIsHeld(more[1..], run + [more[0]]);
      ConcatAssociates(run, [more[0]], more[1..]);
    }
  }

  lemma HeldIsOpen(pending: string)
    requires Holdable(pending)
    ensures Strip(pending, false) == "" && Open(pending, "") == pending
  {
    if pending != "" {
      HeadTail(pending);
      RunIsHeld(pending[1..], [START]);
    }
  }

  lemma {:induction false} PlainPasses(s: string)
    requires START !in s
    ensures Strip(s, false) == s && Open(s, "") == ""
  {
    if s != "" {
      HeadTail(s);
      assert s[0] in s;
      PlainPasses(s[1..]);
    }
  }

  lemma {:induction false} ClosesAt(s: string, run: string, n: nat)
    requires run != "" && n < |s| && s[n] == END && END !in s[..n]
    ensures Strip(s, true) == Strip(s[n + 1..], false) && Open(s, run) == Open(s[n + 1..], "")
    decreases n
  {
    if n > 0 {
      assert s[0] == s[..n][0];
      assert s[1..][..n - 1] == s[..n][1..];
      DropOfDrop(s, 1, n + 1);
      ClosesAt(s[1..], run + [s[0]], n - 1);
    }
  }

  // ----- The promise of the filter -------------------------------------------------------------------

  lemma {:induction false} StripLeavesNoStart(s: string, inside: bool)
    ensures START !in Strip(s, inside)
  {
    if s != "" {
      StripLeavesNoStart(s[1..], if inside then s[0] != END else s[0] == START);
    }
  }

  lemma StripIsIdempotent(s: string)
    ensures Strip(Strip(s, false), false) == Strip(s, false)
  {
    StripLeavesNoStart(s, false);
    PlainPasses(Strip(s, false));
  }

  // The three things stripping does, which determine it: text without a run stays, a complete run
  // goes, an open run goes with everything after it.
  lemma StripRemovesRuns(text: string, run: string, rest: string)
    requires START !in text && END !in run
    ensures Strip(text, false) == text
    ensures Strip(text + ([START] + (run + ([END] + rest))), false) == text + Strip(rest, false)
    ensures Strip(text + ([START] + run), false) == text
  {
    PlainPasses(text);
    var tail := run + ([END] + rest);
    TailOfConcat([START], tail);
    TailOfConcat([START], run);
    ConcatEmpty(tail);
    ConcatEmpty(run);
    StripAppend(text, [START] + tail, "");
    StripAppend(text, [START] + run, "");
    CutOfConcat(run, [END] + rest);
    assert tail[|run|] == END && tail[|run| + 1..] == rest;
    ClosesAt(tail, [START], |run|);
    RunIsHeld(run, [START]);
    ConcatEmpty(text);
  }

  // A longer snapshot of the same answer strips to a longer text.
  lemma StripIsMonotone(s: string, longer: string)
    requires s <= longer
    ensures Strip(s, false) <= Strip(longer, false)
  {
    CutPrefix(s, longer);
    StripAppend(s, longer[|s|..], "");
  }

  // ----- The filter ------------------------------------------------------------------------------------

  method IndexChar(s: string, c: char) returns (i: int)
    ensures -1 <= i < |s| && (i == -1 <==> c !in s)
    ensures i >= 0 ==> s[i] == c && c !in s[..i]
  {
    for k := 0 to |s|
      invariant c !in s[..k]
    {
      if s[k] == c {
        return k;
      }
    }
    return -1;
  }

  lemma FirstRun(s: string, start: nat)
    requires start < |s| && s[start] == START && START !in s[..start]
    ensures Strip(s, false) == s[..start] + Strip(s[start..], false)
    ensures Open(s, "") == Open(s[start..], "")
  {
    PlainPasses(s[..start]);
    CutAt(s, start);
    StripAppend(s[..start], s[start..], "");
  }

  lemma UpToRun(out: string, s: string, start: nat)
    requires start < |s| && s[start] == START && START !in s[..start]
    ensures (out + s[..start]) + Strip(s[start..], false) == out + Strip(s, false)
    ensures Open(s, "") == Open(s[start..], "")
    ensures s[start..] != "" && s[start..][0] == START
  {
    hide Strip, Open;
    FirstRun(s, start);
    ConcatAssociates(out, s[..start], Strip(s[start..], false));
  }

  lemma RestOfRun(rest: string, end: int)
    requires rest != "" && rest[0] == START && -1 <= end < |rest|
    requires if end < 0 then END !in rest else rest[end] == END && END !in rest[..end]
    ensures end < 0 ==> Strip(rest, false) == "" && Open(rest, "") == rest
    ensures end >= 0 ==> Strip(rest, false) == Strip(rest[end + 1..], false)
    ensures end >= 0 ==> Open(rest, "") == Open(rest[end + 1..], "")
  {
    if end < 0 {
      HeldIsOpen(rest);
    } else {
      assert end > 0;
      assert rest[1..][end - 1] == END && rest[1..][..end - 1] == rest[..end][1..];
      ClosesAt(rest[1..], [START], end - 1);
      DropOfDrop(rest, 1, end + 1);
    }
  }

  lemma PushedOn(pending: string, s: string)
    requires Holdable(pending)
    ensures Strip(pending + s, false) == Strip(s, pending != "")
    ensures Open(pending + s, "") == Open(s, pending) && Holdable(Open(s, pending))
  {
    HeldIsOpen(pending);
    StripAppend(pending, s, "");
    StripAppend(s, "", pending);
    ConcatEmpty(Strip(s, pending != ""));
  }

  class CitationFilter {
    var pending: string

    ghost predicate Valid()
      reads this
    {
      Holdable(pending)
    }

    constructor ()
      ensures Valid() && pending == ""
    {
      pending := "";
    }

    // Emits what the one pass leaves of the new text and holds an open run back.
    method Push(s: string) returns (out: string)
      requires Valid()
      modifies this
      ensures Valid() && pending == Open(s, old(pending))
      ensures out == Strip(s, old(pending) != "")
    {
      if s == "" {
        return "";
      }
      hide Strip, Open, Holdable;
      PushedOn(pending, s);
      ghost var left, open := Strip(s, pending != ""), Open(s, pending);
      ConcatEmpty(left);
      var combined := pending + s;
      pending := "";
      out := "";
      while true
        invariant pending == ""
        invariant out + Strip(combined, false) == left && Open(combined, "") == open
        decreases |combined|
      {
        var start := IndexChar(combined, START);
        if start < 0 {
          PlainPasses(combined);
          out := out + combined;
          break;
        }
        UpToRun(out, combined, start);
        out := out + combined[..start];
        var rest := combined[start..];
        var end := IndexChar(rest, END);
        RestOfRun(rest, end);
        if end < 0 {
          ConcatEmpty(out);
          pending := rest;
          break;
        }
        combined := rest[end + 1..];
      }
    }

    // An open run is dropped at the end of a turn.
    method Flush() returns (held: string)
      modifies this
      ensures Valid() && pending == "" && held == old(pending)
    {
      held := pending;
      pending := "";
    }
  }

  method StripCitations(s: string) returns (out: string)
    ensures out == Strip(s, false)
  {
    var i := IndexChar(s, START);
    if i < 0 {
      PlainPasses(s);
      return s;
    }
    var filter := new CitationFilter();
    out := filter.Push(s);
    var held := filter.Flush();
  }

  // ----- Chunks ------------------------------------------------------------------------------------------

  // The outputs of a filter that is given the chunks, and what it holds then.
  function Pushed(chunks: seq<string>): string {
    if chunks == [] then "" else Pushed(Init(chunks)) + Strip(Last(chunks), Holding(Init(chunks)) != "")
  }

  function Holding(chunks: seq<string>): string {
    if chunks == [] then "" else Open(Last(chunks), Holding(Init(chunks)))
  }

  // However the text is cut, the outputs join to the stripped text; what is held back has no end
  // delimiter and starts with the start delimiter, and is the open run of the whole text.
  lemma {:induction false} ChunkingDoesNotMatter(chunks: seq<string>)
    ensures Pushed(chunks) == Strip(Concat(chunks), false)
    ensures Holding(chunks) == Open(Concat(chunks), "") && Holdable(Holding(chunks))
  {
    if chunks != [] {
      var before := Concat(Init(chunks));
      ConcatSnoc(chunks);
      ChunkingDoesNotMatter(Init(chunks));
      StripAppend(before, Last(chunks), "");
      StripAppend(Concat(chunks), "", "");
    }
  }
}
