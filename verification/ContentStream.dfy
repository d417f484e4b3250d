/** The extractor that publishes the assistant's content while the response is still arriving. */
module ContentStream {
  import opened Options
  import opened Seqs
  import opened StreamScan
  import opened StreamPrefix

  // ----- The extractor as a value ----------------------------------------------------

  datatype Extractor = Extractor(
    buffer: string, text: string, done: bool,
    locked: bool, start: int, end: int, complete: bool)

  const FRESH := Extractor("", "", false, false, 0, 0, false)

  predicate ChatShaped(candidate: Option<Candidate>) {
    candidate.Some? && candidate.value.shapeFound
  }

  // The first object from `index` on that has shown the chat shape; an object that is still open
  // and has not shown it ends the search.
  function FirstCandidate(raw: string, index: nat): Option<Candidate>
    requires index <= |raw|
    decreases |raw| - index
  {
    var start := FirstIndex(raw, '{', index);
    if start == |raw| then None
    else if ChatShaped(Scan(raw, start)) then Scan(raw, start)
    else
      var (end, complete) := JsonEnd(raw, start);
      if complete then FirstCandidate(raw, end) else None
  }

  function Current(e: Extractor): Option<Candidate> {
    if e.locked then Scan(e.buffer, e.start) else FirstCandidate(e.buffer, 0)
  }

  // The extractor after one chunk, and what it publishes.
  function Fed(e: Extractor, chunk: string): (r: (Extractor, string))
    ensures r.0.text == e.text + r.1
  {
    if e.done || chunk == "" then (e, "")
    else
      var e1 := e.(buffer := e.buffer + chunk);
      match Current(e1)
      case None => (e1, "")
      case Some(c) =>
        var e2 := e1.(locked := true, start := if e.locked then e.start else c.start,
                      end := c.end, complete := c.complete);
        if c.contentFound && e.text <= c.content
        then (e2.(text := c.content), c.content[|e.text|..])
        else (e2, "")
  }

  // The text the final parser is given.
  function FinalText(e: Extractor): string {
    if e.locked && e.complete && 0 <= e.start < e.end <= |e.buffer|
    then e.buffer[e.start..e.end]
    else e.buffer
  }

  // `parse` stands for the final parser, which returns the content of a response text.
  function Committed(e: Extractor, parse: string -> string): (r: (Extractor, string)) {
    if e.done then (e, "")
    else
      var content := parse(FinalText(e));
      if e.text <= content
      then (e.(done := true, text := content), content[|e.text|..])
      else (e.(done := true), "")
  }

  // ----- The extractor as an object ------------------------------------------------------

  class ContentStreamExtractor {
    var buffer: string
    var text: string
    var done: bool
    var candidateLocked: bool
    var candidateStart: int
    var candidateEnd: int
    var candidateComplete: bool

    ghost function State(): Extractor
      reads this
    {
      Extractor(buffer, text, done, candidateLocked, candidateStart, candidateEnd, candidateComplete)
    }

    constructor ()
      ensures State() == FRESH
    {
      buffer, text, done := "", "", false;
      candidateLocked, candidateStart, candidateEnd, candidateComplete := false, 0, 0, false;
    }

    // What has been published is only ever extended, by exactly what the call returns.
    method Feed(chunk: string) returns (delta: string)
      modifies this
      ensures (State(), delta) == Fed(old(State()), chunk)
      ensures text == old(text) + delta
    {
      if done || chunk == "" {
        return "";
      }
      buffer := buffer + chunk;
      var candidate := CurrentCandidate();
      if candidate.None? {
        return "";
      }
      if !candidateLocked {
        candidateLocked := true;
        candidateStart := candidate.value.start;
      }
      candidateEnd := candidate.value.end;
      candidateComplete := candidate.value.complete;
      var content := candidate.value.content;
      if !candidate.value.contentFound || !(text <= content) {
        return "";
      }
      delta := content[|text|..];
      text := content;
    }

    method CurrentCandidate() returns (r: Option<Candidate>)
      ensures r == Current(State())
    {
      if candidateLocked {
        r := ScanStreamContentCandidate(buffer, candidateStart);
        return;
      }
      var index: nat := 0;
      while index < |buffer|
        invariant index <= |buffer|
        invariant FirstCandidate(buffer, index) == FirstCandidate(buffer, 0)
      {
        var start := FirstIndex(buffer, '{', index);
        if start == |buffer| {
          break;
        }
        var candidate := ScanStreamContentCandidate(buffer, start);
        if candidate.Some? && candidate.value.shapeFound {
          return candidate;
        }
        var end, complete := StreamJsonEnd(buffer, start);
        if !complete {
          break;
        }
        index := end;
      }
      return None;
    }

    method ParseText() returns (r: string)
      ensures r == FinalText(State())
    {
      if candidateLocked && candidateComplete && candidateStart >= 0
         && candidateEnd > candidateStart && candidateEnd <= |buffer| {
        return buffer[candidateStart..candidateEnd];
      }
      return buffer;
    }

    method Commit(parse: string -> string) returns (delta: string)
      modifies this
      ensures (State(), delta) == Committed(old(State()), parse)
      ensures text == old(text) + delta && done
    {
      if done {
        return "";
      }
      var finalText := ParseText();
      var content := parse(finalText);
      done := true;
      if !(text <= content) {
        return "";
      }
      delta := content[|text|..];
      text := content;
    }

    method Text() returns (r: string)
      ensures r == text
    {
      return text;
    }
  }

  // ----- Runs ---------------------------------------------------------------------------

  // The extractor after a list of chunks, and the concatenation of what it published.
  function FedAll(e: Extractor, chunks: seq<string>): (r: (Extractor, string))
    decreases |chunks|
  {
    if chunks == [] then (e, "")
    else
      var (e1, delta) := Fed(e, chunks[0]);
      var (e2, rest) := FedAll(e1, chunks[1..]);
      (e2, delta + rest)
  }

  // At every moment the published pieces, joined, are the extractor's text: nothing is retracted.
  lemma {:induction false} PublishedIsText(e: Extractor, chunks: seq<string>)
    ensures var (after, published) := FedAll(e, chunks); after.text == e.text + published
    decreases |chunks|
  {
    if chunks != [] {
      var (e1, delta) := Fed(e, chunks[0]);
      PublishedIsText(e1, chunks[1..]);
      ConcatAssociates(e.text, delta, FedAll(e1, chunks[1..]).1);
    }
  }

  // Every object between `index` and `start` is balanced and never shows the chat shape, and the
  // next opening brace after them is the one at `start`.
  predicate LeadsTo(raw: string, index: nat, start: nat)
    requires index <= |raw|
    decreases |raw| - index
  {
    var a := FirstIndex(raw, '{', index);
    a < |raw| &&
    (a == start ||
     (a < start && !ScanFrom(raw, a, INITIAL).shape && JsonEnd(raw, a).1 && JsonEnd(raw, a).0 <= start &&
      LeadsTo(raw, JsonEnd(raw, a).0, start)))
  }

  // The response holds an object at `start` that shows the chat shape and closes the brackets it
  // opens as far as it goes, behind objects that never show the shape.
  predicate ChatObject(raw: string, start: nat) {
    LeadsTo(raw, 0, start) && ShapedAt(raw, start)
  }

  predicate ShapedAt(raw: string, start: nat) {
    start < |raw| && raw[start] == '{' &&
    var o := ScanFrom(raw, start, INITIAL);
    o.shape && !o.Broken?
  }

  // What the scanner reads as content of the object on the complete response; nothing when there
  // is no content or when it is no string.
  function Content(raw: string, start: nat): string
    requires ShapedAt(raw, start)
  {
    var o := ScanFrom(raw, start, INITIAL);
    if o.Found? then ContentAt(raw, o.value) else ""
  }

  // The chat object's content, if it is a string at all, is in reach of the decoder's window.
  predicate Answers(raw: string, start: nat) {
    ChatObject(raw, start) &&
    var o := ScanFrom(raw, start, INITIAL);
    o.Found? ==> InReachAt(raw, o.value)
  }

  lemma {:induction false} IndexOfPrefix(raw: string, cut: nat, c: char, i: nat)
    requires i <= cut <= |raw|
    ensures FirstIndex(raw[..cut], c, i) == if FirstIndex(raw, c, i) < cut then FirstIndex(raw, c, i) else cut
    decreases cut - i
  {
    if i < cut && raw[i] != c {
      IndexOfPrefix(raw, cut, c, i + 1);
    }
  }

  // Every candidate ends where the braces balance, or with the text when they do not.
  lemma CandidateEndIsBalanced(raw: string, start: nat)
    ensures var r := Scan(raw, start);
            r.Some? ==> start < |raw| && r.value.start == start
                        && (r.value.end, r.value.complete) == JsonEnd(raw, start)
  {
    if start < |raw| {
      EndOfOutcome(raw, start, INITIAL);
    }
  }

  lemma NothingBeyond(part: string)
    ensures forall value :: value >= |part| ==> ContentAt(part, value) == ""
  {
  }

  // On a beginning of the response the object is selected or still open, and what is seen of its
  // content is what the beginning holds of it.
  lemma ScanOfBeginning(raw: string, start: nat, cut: nat)
    requires ShapedAt(raw, start) && start < cut <= |raw|
    ensures var o, r := ScanFrom(raw, start, INITIAL), Scan(raw[..cut], start);
            && (r.Some? ==> r.value.shapeFound)
            && (r.None? ==> !JsonEnd(raw[..cut], start).1)
            && (r.Some? && r.value.content != "" ==>
                  o.Found? && r.value.content == ContentAt(raw[..cut], o.value))
            && (o.Found? && o.value < cut ==>
                  r.Some? && r.value.contentFound && r.value.content == ContentAt(raw[..cut], o.value))
  {
    hide ContentAt, Step;
    ScanOfPrefix(raw, cut, start, INITIAL);
    EndOfOutcome(raw[..cut], start, INITIAL);
    NothingBeyond(raw[..cut]);
  }

  // An object that never shows the chat shape does not show it on a beginning either.
  lemma UnshapedPrefix(raw: string, a: nat, cut: nat)
    requires a < cut <= |raw| && raw[a] == '{' && !ScanFrom(raw, a, INITIAL).shape
    ensures !ChatShaped(Scan(raw[..cut], a))
  {
    ScanOfPrefix(raw, cut, a, INITIAL);
  }

  lemma EndOfBeginning(raw: string, cut: nat, a: nat)
    requires a <= cut <= |raw|
    ensures JsonEnd(raw[..cut], a) == if JsonEnd(raw, a).1 && JsonEnd(raw, a).0 <= cut
                                      then JsonEnd(raw, a) else (cut, false)
    ensures JsonEnd(raw, a).1 ==> JsonEnd(raw, a).0 > a
  {
    BalancedOfPrefix(raw, cut, a, 0, false, false);
  }

  // Candidate stability: on any beginning of the response the search selects either nothing or
  // the very object it selects on the complete response.
  lemma {:induction false} CandidateIsStable(raw: string, start: nat, cut: nat, index: nat)
    requires ShapedAt(raw, start) && index <= cut <= |raw| && LeadsTo(raw, index, start)
    ensures var r := FirstCandidate(raw[..cut], index);
            && (r.Some? ==> start < cut && r == Scan(raw[..cut], start))
            && (start < cut && Scan(raw[..cut], start).Some? ==> r.Some?)
    decreases cut - index
  {
    hide Scan, JsonEnd, ScanFrom;
    var part := raw[..cut];
    var a := FirstIndex(raw, '{', index);
    IndexOfPrefix(raw, cut, '{', index);
    if a < cut {
      EndOfBeginning(raw, cut, a);
      if a == start {
        ScanOfBeginning(raw, start, cut);
      } else {
        UnshapedPrefix(raw, a, cut);
        var end := JsonEnd(raw, a).0;
        if end <= cut {
          CandidateIsStable(raw, start, cut, end);
        }
      }
    }
  }

  lemma CurrentOnPrefix(raw: string, start: nat, e: Extractor)
    requires ChatObject(raw, start) && e.buffer <= raw
    requires e.locked ==> e.start == start < |e.buffer|
    ensures var r := Current(e);
            && (r.Some? ==> start < |e.buffer| && r == Scan(e.buffer, start))
            && (start < |e.buffer| && Scan(e.buffer, start).Some? ==> r.Some?)
  {
    assert e.buffer == raw[..|e.buffer|];
    if !e.locked {
      CandidateIsStable(raw, start, |e.buffer|, 0);
    }
  }

  // Everything the extractor sees after reading the first |buffer| characters of the response.
  lemma CandidateOnPrefix(raw: string, start: nat, e: Extractor)
    requires ChatObject(raw, start) && e.buffer <= raw
    requires e.locked ==> e.start == start < |e.buffer|
    ensures var r, o := Current(e), ScanFrom(raw, start, INITIAL);
            && (r.Some? ==> start < |e.buffer| && r.value.start == start
                            && (r.value.end, r.value.complete) == JsonEnd(e.buffer, start)
                            && (r.value.content == "" || (o.Found? && r.value.content == ContentAt(e.buffer, o.value))))
            && (r.None? && start < |e.buffer| ==> !JsonEnd(e.buffer, start).1)
            && (o.Found? && start <= o.value < |e.buffer| ==>
                  r.Some? && r.value.contentFound && r.value.content == ContentAt(e.buffer, o.value))
  {
    hide ShapedAt, LeadsTo, Scan, Current, JsonEnd, ScanFrom, ContentAt;
    var cut := |e.buffer|;
    assert e.buffer == raw[..cut];
    CurrentOnPrefix(raw, start, e);
    if start < cut {
      ScanOfBeginning(raw, start, cut);
      CandidateEndIsBalanced(e.buffer, start);
    }
  }

  // What the extractor knows after reading the first |buffer| characters of the response.
  predicate Reading(raw: string, start: nat, e: Extractor)
    requires Answers(raw, start)
  {
    && e.buffer <= raw && !e.done
    && (e.locked ==> e.start == start < |e.buffer|)
    && e.text <= Content(raw, start)
    && (e.buffer == raw ==> e.text == Content(raw, start))
    && (JsonEnd(raw, start).1 && JsonEnd(raw, start).0 <= |e.buffer| ==>
          e.locked && e.complete && e.end == JsonEnd(raw, start).0)
    && (e.complete ==> e.locked && JsonEnd(raw, start) == (e.end, true) && e.end <= |e.buffer|)
  }
  // The content on a beginning of the response, and on all of it.
  lemma ContentSoFar(raw: string, start: nat, cut: nat)
    requires Answers(raw, start) && cut <= |raw|
    ensures var o := ScanFrom(raw, start, INITIAL);
            && (o.Found? ==> ContentAt(raw[..cut], o.value) <= Content(raw, start))
            && (o.Found? && cut == |raw| ==> ContentAt(raw[..cut], o.value) == Content(raw, start))
            && (!o.Found? ==> Content(raw, start) == "")
            && (o.Found? ==> o.value > start && (o.value >= |raw| ==> Content(raw, start) == ""))
  {
    var o := ScanFrom(raw, start, INITIAL);
    OutcomeLiesAhead(raw, start, INITIAL);
    if o.Found? {
      SteadyExactly(raw, o.value);
    }
    assert raw[..|raw|] == raw;
  }

  lemma IsChatObject(raw: string, start: nat)
    requires Answers(raw, start)
    ensures ChatObject(raw, start) && start < |raw|
  {
  }

  lemma BalanceBeyond(raw: string, start: nat)
    requires start <= |raw|
    ensures JsonEnd(raw, start).1 ==> JsonEnd(raw, start).0 > start
  {
  }

  lemma FeedKeepsReading(raw: string, start: nat, e: Extractor, chunk: string)
    requires Answers(raw, start) && Reading(raw, start, e) && e.buffer + chunk <= raw
    ensures Reading(raw, start, Fed(e, chunk).0)
    ensures Fed(e, chunk).0.buffer == e.buffer + chunk
  {
    hide Answers, Content, Current, JsonEnd, ScanFrom, ContentAt;
    if chunk != "" {
      var e1 := e.(buffer := e.buffer + chunk);
      var cut := |e1.buffer|;
      assert e1.buffer == raw[..cut];
      IsChatObject(raw, start);
      CandidateOnPrefix(raw, start, e1);
      ContentSoFar(raw, start, cut);
      if start < cut {
        EndOfBeginning(raw, cut, start);
      }
      BalanceBeyond(raw, start);
    } else {
      assert e.buffer + chunk == e.buffer;
    }
  }

  lemma {:induction false} RunKeepsReading(raw: string, start: nat, e: Extractor, chunks: seq<string>)
    requires Answers(raw, start) && Reading(raw, start, e) && e.buffer + Concat(chunks) <= raw
    ensures Reading(raw, start, FedAll(e, chunks).0)
    ensures FedAll(e, chunks).0.buffer == e.buffer + Concat(chunks)
    decreases |chunks|
  {
    hide Reading, Answers, Fed;
    if chunks == [] {
      assert e.buffer + Concat(chunks) == e.buffer;
    } else {
      ConcatAssociates(e.buffer, chunks[0], Concat(chunks[1..]));
      FeedKeepsReading(raw, start, e, chunks[0]);
      RunKeepsReading(raw, start, Fed(e, chunks[0]).0, chunks[1..]);
    }
  }

  // Everything a run on a part of the response establishes.
  lemma ReadsFromFresh(raw: string, start: nat, chunks: seq<string>)
    requires Answers(raw, start) && Concat(chunks) <= raw
    ensures var e := FedAll(FRESH, chunks).0;
            && Reading(raw, start, e) && e.buffer == Concat(chunks)
            && FedAll(FRESH, chunks).1 == e.text
  {
    hide Answers, Fed;
    IsChatObject(raw, start);
    BalanceBeyond(raw, start);
    ConcatEmpty(Concat(chunks));
    RunKeepsReading(raw, start, FRESH, chunks);
    PublishedIsText(FRESH, chunks);
    ConcatEmpty(FedAll(FRESH, chunks).1);
  }

  lemma WholeResponseRead(raw: string, start: nat, e: Extractor)
    requires Answers(raw, start) && Reading(raw, start, e) && e.buffer == raw
    ensures !e.done && e.text == Content(raw, start)
    ensures FinalText(e) == if JsonEnd(raw, start).1 then raw[start..JsonEnd(raw, start).0] else raw
  {
    BalanceBeyond(raw, start);
  }

  // Chunk independence: however the response is cut, the published pieces join to the decoded
  // content of its first chat object, and the final parser is given exactly that object.
  lemma ChunkingDoesNotMatter(raw: string, start: nat, chunks: seq<string>)
    requires Answers(raw, start) && Concat(chunks) == raw
    ensures var (e, published) := FedAll(FRESH, chunks);
            && published == e.text == Content(raw, start) && !e.done
            && FinalText(e) == if JsonEnd(raw, start).1 then raw[start..JsonEnd(raw, start).0] else raw
  {
    hide Reading;
    ReadsFromFresh(raw, start, chunks);
    WholeResponseRead(raw, start, FedAll(FRESH, chunks).0);
  }

  // A chat object without a string as content, as responses that only call tools have: however it
  // is cut nothing is published, and the final parser is given exactly the object.
  lemma SilentObjectIsHandedOn(raw: string, start: nat, chunks: seq<string>)
    requires ChatObject(raw, start) && Concat(chunks) == raw
    requires var o := ScanFrom(raw, start, INITIAL);
             o.Found? ==> o.value >= |raw| || raw[o.value] != '"'
    ensures var (e, published) := FedAll(FRESH, chunks);
            && published == ""
            && FinalText(e) == if JsonEnd(raw, start).1 then raw[start..JsonEnd(raw, start).0] else raw
  {
    ChunkingDoesNotMatter(raw, start, chunks);
  }

  // Nothing is published that later proves wrong: after any part of the response the published
  // pieces are a beginning of the content.
  lemma PublishedIsNeverWrong(raw: string, start: nat, chunks: seq<string>)
    requires Answers(raw, start) && Concat(chunks) <= raw
    ensures FedAll(FRESH, chunks).1 <= Content(raw, start)
  {
    hide Answers;
    ReadsFromFresh(raw, start, chunks);
  }

  // ----- Exactly when the chunks do not matter ---------------------------------------------------

  // A first chunk that reaches the chat object publishes what it holds of the content.
  lemma FirstChunkShows(raw: string, start: nat, cut: nat)
    requires ChatObject(raw, start) && cut <= |raw|
    requires ScanFrom(raw, start, INITIAL).Found? && ScanFrom(raw, start, INITIAL).value < cut
    ensures Fed(FRESH, raw[..cut]).1 == ContentAt(raw[..cut], ScanFrom(raw, start, INITIAL).value)
  {
    hide ContentAt, ScanFrom, Current, LeadsTo;
    OutcomeLiesAhead(raw, start, INITIAL);
    var part := raw[..cut];
    ConcatEmpty(part);
    CandidateOnPrefix(raw, start, FRESH.(buffer := part));
  }

  // Read in one chunk, every chat object publishes its content.
  lemma OneChunkShowsContent(raw: string, start: nat)
    requires ChatObject(raw, start)
    ensures Fed(FRESH, raw).1 == Content(raw, start)
  {
    hide ScanFrom, Current, ContentAt, LeadsTo, JsonEnd;
    OutcomeLiesAhead(raw, start, INITIAL);
    NothingBeyond(raw);
    ConcatEmpty(raw);
    assert raw != "";
    CandidateOnPrefix(raw, start, FRESH.(buffer := raw));
  }

  lemma RunOfOne(raw: string)
    ensures FedAll(FRESH, [raw]).1 == Fed(FRESH, raw).1
  {
    ConcatEmpty(Fed(FRESH, raw).1);
  }

  lemma RunOfTwo(a: string, b: string)
    ensures Concat([a, b]) == a + b
    ensures Fed(FRESH, a).1 <= FedAll(FRESH, [a, b]).1
  {
    hide Fed;
    assert [a, b][1..] == [b];
    assert Concat([b]) == b + Concat([]) == b;
  }

  lemma TwoChunksDiffer(raw: string, start: nat) returns (cut: nat)
    requires ChatObject(raw, start) && !Answers(raw, start)
    ensures cut <= |raw| && Concat([raw[..cut], raw[cut..]]) == raw
    ensures !(FedAll(FRESH, [raw[..cut], raw[cut..]]).1 <= Content(raw, start))
  {
    hide ContentAt, ScanFrom, InReachAt;
    var value := ScanFrom(raw, start, INITIAL).value;
    SteadyExactly(raw, value);
    cut :| 0 <= cut <= |raw| && !(ContentAt(raw[..cut], value) <= ContentAt(raw, value));
    NothingBeyond(raw[..cut]);
    FirstChunkShows(raw, start, cut);
    RunOfTwo(raw[..cut], raw[cut..]);
    CutAt(raw, cut);
  }

  // A cutting publishes the same as every other if and only if the content is in reach: otherwise
  // two chunks publish something that one chunk does not publish at all.
  lemma ChunksMatterExactlyOutOfReach(raw: string, start: nat)
    requires ChatObject(raw, start)
    ensures FedAll(FRESH, [raw]).1 == Content(raw, start)
    ensures (forall chunks: seq<string> | Concat(chunks) == raw :: FedAll(FRESH, chunks).1 == Content(raw, start))
            <==> Answers(raw, start)
  {
    OneChunkShowsContent(raw, start);
    RunOfOne(raw);
    if Answers(raw, start) {
      forall chunks: seq<string> | Concat(chunks) == raw
        ensures FedAll(FRESH, chunks).1 == Content(raw, start)
      {
        ChunkingDoesNotMatter(raw, start, chunks);
      }
    } else {
      var cut := TwoChunksDiffer(raw, start);
    }
  }

  // A commit whose parser agrees with the stream publishes nothing more; one that extends it
  // publishes only the missing suffix. Either way the extractor is closed for good.
  lemma CommitAddsOnlyTheRest(raw: string, start: nat, chunks: seq<string>, parse: string -> string, later: string)
    requires Answers(raw, start) && Concat(chunks) == raw && JsonEnd(raw, start).1
    ensures var e := FedAll(FRESH, chunks).0;
            var content := parse(raw[start..JsonEnd(raw, start).0]);
            var (after, delta) := Committed(e, parse);
            && (content == Content(raw, start) ==> delta == "")
            && (Content(raw, start) <= content ==> Content(raw, start) + delta == content == after.text)
            && Fed(after, later) == (after, "") && Committed(after, parse) == (after, "")
  {
    hide Answers, Fed, FinalText, Committed;
    ChunkingDoesNotMatter(raw, start, chunks);
    CommitCloses(FedAll(FRESH, chunks).0, parse, later);
  }

  lemma CommitCloses(e: Extractor, parse: string -> string, later: string)
    requires !e.done
    ensures var content := parse(FinalText(e)); var (after, delta) := Committed(e, parse);
            && (content == e.text ==> delta == "")
            && (e.text <= content ==> e.text + delta == content == after.text)
            && Fed(after, later) == (after, "") && Committed(after, parse) == (after, "")
  {
  }
}
