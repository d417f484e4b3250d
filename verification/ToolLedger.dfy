/** The evidence ledger of a client-driven tool loop, rebuilt from the history on every request. */
module ToolLedger {
  import opened Options
  import opened Seqs
  import opened Spaces
  import opened Utf8

  const MAX_RESULT := 4000
  const MIN_TAIL := 80

  datatype Call = Call(id: string, name: string, arguments: string)

  datatype Answer = Answer(id: string, content: string)

  // `answer` is the shortened result, in bytes.
  datatype Evidence = Evidence(id: string, name: string, arguments: string, answer: Bytes, failed: bool)

  // What the ledger asks of the JSON library and of its word lists.
  datatype Words = Words(
    canonicalJson: string -> Option<string>,
    reportsFailure: string -> bool,
    normalFailure: string -> string)

  datatype Ledger = Ledger(
    completed: seq<Evidence>, pending: seq<Evidence>,
    repeatedCall: bool, repeatedFailure: bool, repetition: string)

  // ----- Identity of a call -----------------------------------------------------------------------

  function CanonicalArguments(w: Words, arguments: string): string {
    var trimmed := Trim(arguments);
    if trimmed == "" then ""
    else if w.canonicalJson(trimmed).Some? then w.canonicalJson(trimmed).value
    else trimmed
  }

  function CallSignature(w: Words, name: string, arguments: string): string {
    name + "\0" + CanonicalArguments(w, arguments)
  }

  lemma MarkStands(name: string, rest: string)
    requires '\0' !in name
    ensures var s := name + "\0" + rest;
            && FirstIndex(s, '\0', 0) == |name| && s[..|name|] == name && s[|name| + 1..] == rest
  {
    FirstIndexIs(name + "\0" + rest, '\0', 0, |name|);
  }

  // Tool names hold no NUL, so a signature stands for one name with one canonical argument text.
  lemma SignatureIdentifiesCall(w: Words, name1: string, args1: string, name2: string, args2: string)
    requires '\0' !in name1 && '\0' !in name2
    ensures CallSignature(w, name1, args1) == CallSignature(w, name2, args2)
            <==> name1 == name2 && CanonicalArguments(w, args1) == CanonicalArguments(w, args2)
  {
    if CallSignature(w, name1, args1) == CallSignature(w, name2, args2) {
      var c1, c2 := CanonicalArguments(w, args1), CanonicalArguments(w, args2);
      MarkStands(name1, c1);
      MarkStands(name2, c2);
    }
  }

  // ----- Long results -------------------------------------------------------------------------------

  function Decimal(n: nat): string {
    if n < 10 then [('0' as int + n) as char] else Decimal(n / 10) + [('0' as int + n % 10) as char]
  }

  // The number that decimal digits stand for.
  function Value(digits: string): int {
    if digits == "" then 0 else 10 * Value(digits[..|digits| - 1]) + (digits[|digits| - 1] as int - '0' as int)
  }

  // The digits are the number's own, without leading zeros.
  predicate Numeral(digits: string, n: nat) {
    && digits != "" && (forall i :: 0 <= i < |digits| ==> '0' <= digits[i] <= '9')
    && (|digits| > 1 ==> digits[0] != '0')
    && Value(digits) == n
  }

  lemma {:induction false} DecimalIsNumeral(n: nat)
    ensures Numeral(Decimal(n), n) && (n > 0 ==> Decimal(n)[0] != '0')
  {
    if n < 10 {
      assert Value("") == 0;
    } else {
      DecimalIsNumeral(n / 10);
      var digits := Decimal(n);
      assert digits[..|digits| - 1] == Decimal(n / 10);
    }
  }

  function Marker(removed: nat): string {
    "\n... [truncated " + Decimal(removed) + " bytes] ...\n"
  }

  function CompactResult(text: string): Bytes {
    Shortened(Encode(Trim(text)))
  }

  function Shortened(t: Bytes): Bytes {
    if |t| <= MAX_RESULT then t
    else
      var head := MAX_RESULT / 3;
      var tail := if MAX_RESULT - head - MIN_TAIL > MIN_TAIL then MAX_RESULT - head - MIN_TAIL else MIN_TAIL;
      t[..head] + Encode(Marker(|t| - head - tail)) + t[|t| - tail..]
  }

  // A long result keeps its first 1333 and last 2587 bytes and says how many are missing; a short
  // one stays whole.
  lemma CompactKeepsBothEnds(text: string)
    ensures var t, r := Encode(Trim(text)), CompactResult(text);
            if |t| <= 4000 then r == t
            else
              && |r| >= 1333 + 2587 && r[..1333] == t[..1333] && r[|r| - 2587..] == t[|t| - 2587..]
              && var digits := Decimal(|t| - 3920);
                 Numeral(digits, |t| - 3920)
                 && r[1333..|r| - 2587] == Encode("\n... [truncated " + digits + " bytes] ...\n")
  {
    hide Trim, Encode, Decimal, Numeral;
    var t := Encode(Trim(text));
    if |t| > MAX_RESULT {
      DecimalIsNumeral(|t| - 3920);
      EndsAndMarker(t, Encode(Marker(|t| - 3920)));
    }
  }

  lemma EndsAndMarker(t: Bytes, marker: Bytes)
    requires |t| > MAX_RESULT && marker == Encode(Marker(|t| - 3920))
    ensures Shortened(t) == t[..1333] + marker + t[|t| - 2587..]
    ensures var r := Shortened(t);
            && |r| >= 1333 + 2587 && r[..1333] == t[..1333] && r[|r| - 2587..] == t[|t| - 2587..]
            && r[1333..|r| - 2587] == marker
  {
    hide Marker, Encode;
    ThreeParts(t[..1333], marker, t[|t| - 2587..]);
  }

  // ----- What the history says ----------------------------------------------------------------------

  // The last result given for an id; the empty id has none.
  function ResultOf(results: seq<Answer>, id: string): Option<string> {
    if id == "" || results == [] then None
    else if Last(results).id == id then Some(Last(results).content)
    else ResultOf(Init(results), id)
  }

  function EvidenceOf(w: Words, call: Call, answer: Option<string>): Evidence {
    match answer
    case None => Evidence(call.id, call.name, call.arguments, [], false)
    case Some(text) => Evidence(call.id, call.name, call.arguments, CompactResult(text), w.reportsFailure(text))
  }

  function Completed(w: Words, calls: seq<Call>, results: seq<Answer>): seq<Evidence> {
    if calls == [] then []
    else
      var answer := ResultOf(results, Last(calls).id);
      Completed(w, Init(calls), results) + if answer.Some? then [EvidenceOf(w, Last(calls), answer)] else []
  }

  function Pending(w: Words, calls: seq<Call>, results: seq<Answer>): seq<Evidence> {
    if calls == [] then []
    else
      var answer := ResultOf(results, Last(calls).id);
      Pending(w, Init(calls), results) + if answer.None? then [EvidenceOf(w, Last(calls), answer)] else []
  }

  // How many of the calls are answered.
  function Answered(calls: seq<Call>, results: seq<Answer>): nat {
    if calls == [] then 0
    else Answered(Init(calls), results) + if ResultOf(results, Last(calls).id).Some? then 1 else 0
  }

  // What is filed of a call: its id, name and arguments, and of its result, if it has one, the
  // shortened text and whether it reports a failure.
  predicate Tells(w: Words, evidence: Evidence, call: Call, answer: Option<string>) {
    && evidence.id == call.id && evidence.name == call.name && evidence.arguments == call.arguments
    && (answer.None? ==> evidence.answer == [] && !evidence.failed)
    && (answer.Some? ==>
          evidence.answer == CompactResult(answer.value) && (evidence.failed <==> w.reportsFailure(answer.value)))
  }

  // The i-th call stands in the completed list behind the answered ones before it, or in the pending
  // list behind the others before it.
  predicate Filed(w: Words, calls: seq<Call>, results: seq<Answer>, i: nat)
    requires i < |calls|
  {
    var place, answer := Answered(calls[..i], results), ResultOf(results, calls[i].id);
    if answer.Some?
    then place < |Completed(w, calls, results)| && Tells(w, Completed(w, calls, results)[place], calls[i], answer)
    else 0 <= i - place < |Pending(w, calls, results)|
         && Tells(w, Pending(w, calls, results)[i - place], calls[i], answer)
  }

  lemma {:induction false} FiledCounts(w: Words, calls: seq<Call>, results: seq<Answer>)
    ensures |Completed(w, calls, results)| == Answered(calls, results) <= |calls|
    ensures |Completed(w, calls, results)| + |Pending(w, calls, results)| == |calls|
    decreases |calls|
  {
    if calls != [] {
      hide EvidenceOf, ResultOf;
      FiledCounts(w, Init(calls), results);
    }
  }

  lemma FiledLast(w: Words, calls: seq<Call>, results: seq<Answer>)
    requires calls != []
    ensures Filed(w, calls, results, |calls| - 1)
  {
    hide ResultOf;
    FiledCounts(w, Init(calls), results);
  }

  lemma FiledStays(w: Words, calls: seq<Call>, results: seq<Answer>, i: nat)
    requires i < |calls| - 1 && Filed(w, Init(calls), results, i)
    ensures Filed(w, calls, results, i)
  {
    hide EvidenceOf, ResultOf, Answered, Tells;
    TakeOfTake(calls, i, |calls| - 1);
  }

  // Every call is filed once, in the order of the calls.
  lemma {:induction false} EveryCallIsFiledOnce(w: Words, calls: seq<Call>, results: seq<Answer>)
    ensures |Completed(w, calls, results)| + |Pending(w, calls, results)| == |calls|
    ensures forall i :: 0 <= i < |calls| ==> Filed(w, calls, results, i)
    decreases |calls|
  {
    hide Filed, Completed, Pending;
    FiledCounts(w, calls, results);
    if calls != [] {
      EveryCallIsFiledOnce(w, Init(calls), results);
      FiledLast(w, calls, results);
      forall i | 0 <= i < |calls| - 1 ensures Filed(w, calls, results, i) {
        FiledStays(w, calls, results, i);
      }
    }
  }

  // The signatures of the answered calls, and what identifies each failure among them, in order.
  function Signatures(w: Words, calls: seq<Call>, results: seq<Answer>): seq<string> {
    if calls == [] then []
    else
      Signatures(w, Init(calls), results)
      + if ResultOf(results, Last(calls).id).Some?
        then [CallSignature(w, Last(calls).name, Last(calls).arguments)] else []
  }

  function FailureKey(w: Words, call: Call, text: string): string {
    CallSignature(w, call.name, call.arguments) + "\0" + w.normalFailure(text)
  }

  function Failures(w: Words, calls: seq<Call>, results: seq<Answer>): seq<string> {
    if calls == [] then []
    else
      var answer := ResultOf(results, Last(calls).id);
      Failures(w, Init(calls), results)
      + if answer.Some? && w.reportsFailure(answer.value) then [FailureKey(w, Last(calls), answer.value)] else []
  }

  // The name reported with a repetition: of the last repeated failure, or else of the first call
  // that was repeated.
  function Repetition(w: Words, calls: seq<Call>, results: seq<Answer>): string {
    if calls == [] then ""
    else
      var before, call := Init(calls), Last(calls);
      var name, answer := Repetition(w, before, results), ResultOf(results, call.id);
      if answer.None? then name
      else if w.reportsFailure(answer.value) && FailureKey(w, call, answer.value) in Failures(w, before, results)
      then call.name
      else if name == "" && CallSignature(w, call.name, call.arguments) in Signatures(w, before, results) then call.name
      else name
  }

  ghost predicate Repeats(s: seq<string>) {
    exists i, j :: 0 <= i < j < |s| && s[i] == s[j]
  }

  lemma RepeatsSnoc(s: seq<string>, x: string)
    ensures Repeats(s + [x]) <==> Repeats(s) || x in s
  {
    var t := s + [x];
    if Repeats(s) {
      var i, j :| 0 <= i < j < |s| && s[i] == s[j];
      assert t[i] == t[j];
    }
    if x in s {
      var i :| 0 <= i < |s| && s[i] == x;
      assert t[i] == t[|s|];
    }
  }

  // ----- Building the ledger ---------------------------------------------------------------------------

  // A name is reported only with a repetition.
  lemma {:induction false} NamedMeansRepeated(w: Words, calls: seq<Call>, results: seq<Answer>)
    ensures Repetition(w, calls, results) != "" ==>
              Repeats(Signatures(w, calls, results)) || Repeats(Failures(w, calls, results))
  {
    if calls != [] {
      var before, call := Init(calls), Last(calls);
      NamedMeansRepeated(w, before, results);
      var answer := ResultOf(results, call.id);
      ConcatEmpty(Signatures(w, before, results));
      ConcatEmpty(Failures(w, before, results));
      if answer.Some? {
        RepeatsSnoc(Signatures(w, before, results), CallSignature(w, call.name, call.arguments));
        RepeatsSnoc(Failures(w, before, results), FailureKey(w, call, answer.value));
      }
    }
  }

  method IndexResults(results: seq<Answer>) returns (resultById: map<string, string>)
    ensures forall id :: id in resultById <==> ResultOf(results, id).Some?
    ensures forall id :: id in resultById ==> ResultOf(results, id) == Some(resultById[id])
  {
    resultById := map[];
    for i := 0 to |results|
      invariant forall id :: id in resultById <==> ResultOf(results[..i], id).Some?
      invariant forall id :: id in resultById ==> ResultOf(results[..i], id) == Some(resultById[id])
    {
      assert Init(results[..i + 1]) == results[..i];
      if results[i].id != "" {
        resultById := resultById[results[i].id := results[i].content];
      }
    }
    assert results[..|results|] == results;
  }

  // Completed and pending calls are the announced calls, each in one of the two, in order. The two
  // flags say exactly whether two answered calls do the same, and whether two of them fail the
  // same way.
  method BuildLedger(w: Words, calls: seq<Call>, results: seq<Answer>) returns (ledger: Ledger)
    ensures ledger.completed == Completed(w, calls, results)
    ensures ledger.pending == Pending(w, calls, results)
    ensures ledger.repeatedCall <==> Repeats(Signatures(w, calls, results))
    ensures ledger.repeatedFailure <==> Repeats(Failures(w, calls, results))
    ensures ledger.repetition == Repetition(w, calls, results)
  {
    var resultById := IndexResults(results);
    ledger := Ledger([], [], false, false, "");
    var seenCall: set<string>, seenFailure: set<string> := {}, {};
    for i := 0 to |calls|
      invariant ledger.completed == Completed(w, calls[..i], results)
      invariant ledger.pending == Pending(w, calls[..i], results)
      invariant forall s :: s in seenCall <==> s in Signatures(w, calls[..i], results)
      invariant forall s :: s in seenFailure <==> s in Failures(w, calls[..i], results)
      invariant ledger.repeatedCall <==> Repeats(Signatures(w, calls[..i], results))
      invariant ledger.repeatedFailure <==> Repeats(Failures(w, calls[..i], results))
      invariant ledger.repetition == Repetition(w, calls[..i], results)
    {
      var call := calls[i];
      assert Init(calls[..i + 1]) == calls[..i] && Last(calls[..i + 1]) == call;
      ConcatEmpty(Signatures(w, calls[..i], results));
      ConcatEmpty(Failures(w, calls[..i], results));
      if call.id !in resultById {
        ledger := ledger.(pending := ledger.pending + [Evidence(call.id, call.name, call.arguments, [], false)]);
        continue;
      }
      var text := resultById[call.id];
      var evidence := Evidence(call.id, call.name, call.arguments, CompactResult(text), w.reportsFailure(text));
      ledger := ledger.(completed := ledger.completed + [evidence]);
      var signature := CallSignature(w, call.name, call.arguments);
      RepeatsSnoc(Signatures(w, calls[..i], results), signature);
      if signature in seenCall {
        ledger := ledger.(repeatedCall := true);
        if ledger.repetition == "" {
          ledger := ledger.(repetition := call.name);
        }
      }
      seenCall := seenCall + {signature};
      if !evidence.failed {
        continue;
      }
      var key := FailureKey(w, call, text);
      RepeatsSnoc(Failures(w, calls[..i], results), key);
      if key in seenFailure {
        ledger := ledger.(repeatedFailure := true, repetition := call.name);
      }
      seenFailure := seenFailure + {key};
    }
    assert calls[..|calls|] == calls;
  }

  // ----- Dropping settled calls -------------------------------------------------------------------------

  datatype ToolCall = ToolCall(name: string, arguments: string)

  datatype Simulated = Simulated(calls: seq<ToolCall>, content: string, finish: string)

  const NOTICE :=
    "The tools requested in this turn have already run with the same arguments, "
    + "and their results are in the conversation above. "
    + "Answer from those results instead of calling them again."

  function SignatureOf(w: Words, call: ToolCall): string {
    CallSignature(w, call.name, call.arguments)
  }

  function CountSignature(w: Words, completed: seq<Evidence>, signature: string): nat {
    if completed == [] then 0
    else
      CountSignature(w, Init(completed), signature)
      + if CallSignature(w, Last(completed).name, Last(completed).arguments) == signature then 1 else 0
  }

  predicate Settled(w: Words, completed: seq<Evidence>, call: ToolCall) {
    CountSignature(w, completed, SignatureOf(w, call)) >= 2
  }

  // The calls that are settled, or the ones that are not, in order.
  function Sorted(w: Words, completed: seq<Evidence>, calls: seq<ToolCall>, settled: bool): (part: seq<ToolCall>)
    ensures |part| <= |calls|
  {
    if calls == [] then []
    else
      Sorted(w, completed, Init(calls), settled)
      + if Settled(w, completed, Last(calls)) == settled then [Last(calls)] else []
  }

  function Forces(toolChoice: string): bool {
    toolChoice != "" && toolChoice != "auto" && toolChoice != "none"
  }

  // The calls of a turn that reach the client.
  function Forwarded(w: Words, completed: seq<Evidence>, toolChoice: string, calls: seq<ToolCall>): seq<ToolCall> {
    if Forces(toolChoice) then calls else Sorted(w, completed, calls, false)
  }

  method CompletedCount(w: Words, ledger: Ledger, name: string, arguments: string) returns (count: nat)
    ensures count == CountSignature(w, ledger.completed, CallSignature(w, name, arguments))
  {
    hide CallSignature;
    var signature := CallSignature(w, name, arguments);
    var completed := ledger.completed;
    count := 0;
    for i := 0 to |completed|
      invariant count == CountSignature(w, completed[..i], signature)
    {
      InitOfTake(completed, i);
      if CallSignature(w, completed[i].name, completed[i].arguments) == signature {
        count := count + 1;
      }
    }
    assert completed[..|completed|] == completed;
  }

  lemma {:induction false} NothingSettled(w: Words, calls: seq<ToolCall>)
    ensures Sorted(w, [], calls, false) == calls && Sorted(w, [], calls, true) == []
  {
    if calls != [] {
      NothingSettled(w, Init(calls));
      InitLast(calls);
    }
  }

  method FilterRepeated(w: Words, ledger: Ledger, calls: seq<ToolCall>)
    returns (kept: seq<ToolCall>, dropped: seq<ToolCall>)
    ensures kept == Sorted(w, ledger.completed, calls, false)
    ensures dropped == Sorted(w, ledger.completed, calls, true)
  {
    if |ledger.completed| == 0 {
      NothingSettled(w, calls);
      return calls, [];
    }
    kept, dropped := [], [];
    for i := 0 to |calls|
      invariant kept == Sorted(w, ledger.completed, calls[..i], false)
      invariant dropped == Sorted(w, ledger.completed, calls[..i], true)
    {
      assert Init(calls[..i + 1]) == calls[..i];
      var count := CompletedCount(w, ledger, calls[i].name, calls[i].arguments);
      if count >= 2 {
        dropped := dropped + [calls[i]];
        continue;
      }
      kept := kept + [calls[i]];
    }
    assert calls[..|calls|] == calls;
  }

  lemma {:induction false} AllKept(w: Words, completed: seq<Evidence>, calls: seq<ToolCall>)
    requires Sorted(w, completed, calls, true) == []
    ensures Sorted(w, completed, calls, false) == calls
  {
    if calls != [] {
      AllKept(w, completed, Init(calls));
      InitLast(calls);
    }
  }

  // A turn whose calls were all settled ends instead, and says something.
  method DropSettledToolCalls(w: Words, ledger: Ledger, toolChoice: string, simulated: Simulated) returns (r: Simulated)
    ensures r.calls == Forwarded(w, ledger.completed, toolChoice, simulated.calls)
    ensures r.calls == simulated.calls ==> r == simulated
    ensures r.calls == [] && simulated.calls != [] ==>
              r.finish == "stop" && r.content == if Trim(simulated.content) == "" then NOTICE else simulated.content
    ensures r.calls != [] ==> r.finish == simulated.finish && r.content == simulated.content
  {
    if |simulated.calls| == 0 || Forces(toolChoice) {
      return simulated;
    }
    var kept, dropped := FilterRepeated(w, ledger, simulated.calls);
    if |dropped| == 0 {
      AllKept(w, ledger.completed, simulated.calls);
      return simulated;
    }
    PartsAddUp(w, ledger.completed, simulated.calls);
    r := simulated.(calls := kept);
    if |kept| == 0 {
      r := r.(finish := "stop");
      if Trim(r.content) == "" {
        r := r.(content := NOTICE);
      }
    }
  }

  lemma {:induction false} PartsAddUp(w: Words, completed: seq<Evidence>, calls: seq<ToolCall>)
    ensures |Sorted(w, completed, calls, false)| + |Sorted(w, completed, calls, true)| == |calls|
  {
    if calls != [] {
      PartsAddUp(w, completed, Init(calls));
    }
  }

  // ----- A whole turn --------------------------------------------------------------------------------------

  datatype History = History(calls: seq<Call>, results: seq<Answer>)
  {
    ghost predicate Knows(id: string) {
      (exists i :: 0 <= i < |calls| && calls[i].id == id) || (exists i :: 0 <= i < |results| && results[i].id == id)
    }
  }

  function Announced(kept: seq<ToolCall>, ids: seq<string>): seq<Call>
    requires |ids| >= |kept|
  {
    seq(|kept|, i requires 0 <= i < |kept| => Call(ids[i], kept[i].name, kept[i].arguments))
  }

  function Answers(count: nat, ids: seq<string>, contents: seq<string>): seq<Answer>
    requires |ids| >= count && |contents| >= count
  {
    seq(count, i requires 0 <= i < count => Answer(ids[i], contents[i]))
  }

  // One round of the loop: the model asks for `batch`, the settled calls are dropped, the client
  // gives the others their ids and answers them.
  datatype Round = Round(batch: seq<ToolCall>, toolChoice: string, ids: seq<string>, contents: seq<string>)

  ghost predicate Possible(h: History, r: Round) {
    && |r.ids| == |r.batch| == |r.contents|
    && (forall i :: 0 <= i < |r.ids| ==> r.ids[i] != "" && !h.Knows(r.ids[i]))
    && (forall i, j :: 0 <= i < j < |r.ids| ==> r.ids[i] != r.ids[j])
  }

  function Play(w: Words, h: History, r: Round): History
    requires |r.ids| == |r.batch| == |r.contents|
  {
    var kept := Forwarded(w, Completed(w, h.calls, h.results), r.toolChoice, r.batch);
    History(h.calls + Announced(kept, r.ids), h.results + Answers(|kept|, r.ids, r.contents))
  }

  function CountCalls(w: Words, calls: seq<ToolCall>, signature: string): nat {
    if calls == [] then 0
    else CountCalls(w, Init(calls), signature) + if SignatureOf(w, Last(calls)) == signature then 1 else 0
  }

  function Done(w: Words, h: History, signature: string): nat {
    CountSignature(w, Completed(w, h.calls, h.results), signature)
  }

  lemma {:induction false} CompletedAppend(w: Words, a: seq<Call>, b: seq<Call>, results: seq<Answer>)
    ensures Completed(w, a + b, results) == Completed(w, a, results) + Completed(w, b, results)
  {
    if b == [] {
      ConcatEmpty(a);
    } else {
      assert Init(a + b) == a + Init(b) && Last(a + b) == Last(b);
      CompletedAppend(w, a, Init(b), results);
    }
  }

  lemma {:induction false} CountAppend(w: Words, a: seq<Evidence>, b: seq<Evidence>, signature: string)
    ensures CountSignature(w, a + b, signature) == CountSignature(w, a, signature) + CountSignature(w, b, signature)
  {
    if b == [] {
      ConcatEmpty(a);
    } else {
      assert Init(a + b) == a + Init(b) && Last(a + b) == Last(b);
      CountAppend(w, a, Init(b), signature);
    }
  }

  lemma {:induction false} OtherResults(results: seq<Answer>, more: seq<Answer>, id: string)
    requires forall i :: 0 <= i < |more| ==> more[i].id != id
    ensures ResultOf(results + more, id) == ResultOf(results, id)
  {
    if more == [] {
      ConcatEmpty(results);
    } else {
      assert Init(results + more) == results + Init(more) && Last(results + more) == Last(more);
      OtherResults(results, Init(more), id);
    }
  }

  lemma {:induction false} ResultPresent(results: seq<Answer>, j: nat)
    requires j < |results| && results[j].id != ""
    ensures ResultOf(results, results[j].id).Some?
  {
    if Last(results).id != results[j].id {
      ResultPresent(Init(results), j);
    }
  }

  lemma {:induction false} OldStaysCompleted(w: Words, calls: seq<Call>, results: seq<Answer>, more: seq<Answer>)
    requires forall k, i :: 0 <= k < |calls| && 0 <= i < |more| ==> more[i].id != calls[k].id
    ensures Completed(w, calls, results + more) == Completed(w, calls, results)
  {
    if calls != [] {
      OldStaysCompleted(w, Init(calls), results, more);
      OtherResults(results, more, Last(calls).id);
    }
  }

  lemma {:induction false} AnsweredCounts(w: Words, calls: seq<Call>, kept: seq<ToolCall>, results: seq<Answer>,
                                          signature: string)
    requires |calls| == |kept|
    requires forall i :: 0 <= i < |calls| ==>
               calls[i].name == kept[i].name && calls[i].arguments == kept[i].arguments
               && ResultOf(results, calls[i].id).Some?
    ensures CountSignature(w, Completed(w, calls, results), signature) == CountCalls(w, kept, signature)
  {
    if calls != [] {
      AnsweredCounts(w, Init(calls), Init(kept), results, signature);
      var evidence := EvidenceOf(w, Last(calls), ResultOf(results, Last(calls).id));
      var before := Completed(w, Init(calls), results);
      assert Init(before + [evidence]) == before && Last(before + [evidence]) == evidence;
    }
  }

  lemma {:induction false} SortedCounts(w: Words, completed: seq<Evidence>, calls: seq<ToolCall>, signature: string)
    ensures CountCalls(w, Sorted(w, completed, calls, false), signature)
            == if CountSignature(w, completed, signature) >= 2 then 0 else CountCalls(w, calls, signature)
  {
    if calls != [] {
      hide CountSignature, SignatureOf;
      SnocCounts(w, Sorted(w, completed, Init(calls), false), Last(calls), signature);
      ConcatEmpty(Sorted(w, completed, Init(calls), false));
      SortedCounts(w, completed, Init(calls), signature);
    }
  }

  lemma SnocCounts(w: Words, calls: seq<ToolCall>, call: ToolCall, signature: string)
    ensures CountCalls(w, calls + [call], signature)
            == CountCalls(w, calls, signature) + if SignatureOf(w, call) == signature then 1 else 0
  {
    assert Init(calls + [call]) == calls && Last(calls + [call]) == call;
  }

  lemma KeptAreAnswered(w: Words, h: History, r: Round, kept: seq<ToolCall>, signature: string)
    requires Possible(h, r) && |kept| <= |r.batch|
    ensures var calls, results := Announced(kept, r.ids), h.results + Answers(|kept|, r.ids, r.contents);
            CountSignature(w, Completed(w, calls, results), signature) == CountCalls(w, kept, signature)
  {
    var calls, answers := Announced(kept, r.ids), Answers(|kept|, r.ids, r.contents);
    var results := h.results + answers;
    hide Completed, CountSignature, CountCalls;
    forall i | 0 <= i < |calls| ensures ResultOf(results, calls[i].id).Some? {
      assert results[|h.results| + i] == answers[i];
      ResultPresent(results, |h.results| + i);
    }
    AnsweredCounts(w, calls, kept, results, signature);
  }

  // A round adds to the completed results of a signature as often as the batch asks for it, and
  // nothing once it has two, unless the request forces a call.
  lemma RoundCounts(w: Words, h: History, r: Round, signature: string)
    requires Possible(h, r)
    ensures Done(w, Play(w, h, r), signature)
            == Done(w, h, signature)
               + if r.toolChoice !in {"", "auto", "none"} || Done(w, h, signature) < 2
                 then CountCalls(w, r.batch, signature) else 0
  {
    hide Completed, CountSignature, CountCalls, ResultOf, Sorted;
    var completed := Completed(w, h.calls, h.results);
    var kept := Forwarded(w, completed, r.toolChoice, r.batch);
    SortedCounts(w, completed, r.batch, signature);
    var calls, answers := Announced(kept, r.ids), Answers(|kept|, r.ids, r.contents);
    OldStaysCompleted(w, h.calls, h.results, answers);
    KeptAreAnswered(w, h, r, kept, signature);
    CompletedAppend(w, h.calls, calls, h.results + answers);
    CountAppend(w, completed, Completed(w, calls, h.results + answers), signature);
  }

  // Pairwise distinct calls ask for each signature at most once.
  lemma {:induction false} DistinctCallsCountOnce(w: Words, calls: seq<ToolCall>, signature: string)
    requires forall i, j :: 0 <= i < j < |calls| ==> SignatureOf(w, calls[i]) != SignatureOf(w, calls[j])
    ensures CountCalls(w, calls, signature) <= 1
    ensures CountCalls(w, calls, signature) == 1
            <==> exists i :: 0 <= i < |calls| && SignatureOf(w, calls[i]) == signature
  {
    hide SignatureOf;
    if calls != [] {
      DistinctCallsCountOnce(w, Init(calls), signature);
      assert SignatureOf(w, Last(calls)) == SignatureOf(w, calls[|calls| - 1]);
    }
  }

  ghost predicate PossibleTurn(w: Words, h: History, rounds: seq<Round>)
    decreases |rounds|
  {
    rounds == [] || (Possible(h, rounds[0]) && PossibleTurn(w, Play(w, h, rounds[0]), rounds[1..]))
  }

  function PlayTurn(w: Words, h: History, rounds: seq<Round>): History
    requires forall i :: 0 <= i < |rounds| ==> |rounds[i].ids| == |rounds[i].batch| == |rounds[i].contents|
    decreases |rounds|
  {
    if rounds == [] then h else PlayTurn(w, Play(w, h, rounds[0]), rounds[1..])
  }

  // When no batch asks for the same call more than m times and nothing forces a call, a signature
  // never gets more than m + 1 completed results: two, when the calls of a batch are distinct.
  lemma {:induction false} TurnIsBounded(w: Words, h: History, rounds: seq<Round>, signature: string, m: nat)
    requires m > 0 && Done(w, h, signature) <= m + 1
    requires forall i :: 0 <= i < |rounds| ==> |rounds[i].ids| == |rounds[i].batch| == |rounds[i].contents|
    requires PossibleTurn(w, h, rounds)
    requires forall i :: 0 <= i < |rounds| ==>
               rounds[i].toolChoice in {"", "auto", "none"} && CountCalls(w, rounds[i].batch, signature) <= m
    ensures Done(w, PlayTurn(w, h, rounds), signature) <= m + 1
    decreases |rounds|
  {
    if rounds != [] {
      hide Play, Done, CountCalls, Possible;
      RoundCounts(w, h, rounds[0], signature);
      TurnIsBounded(w, Play(w, h, rounds[0]), rounds[1..], signature, m);
    }
  }

  // A request that forces a call switches the bound off: each such round adds what it asks for.
  lemma {:induction false} ForcedTurnGrows(w: Words, h: History, rounds: seq<Round>, signature: string)
    requires forall i :: 0 <= i < |rounds| ==> |rounds[i].ids| == |rounds[i].batch| == |rounds[i].contents|
    requires PossibleTurn(w, h, rounds)
    requires forall i :: 0 <= i < |rounds| ==>
               rounds[i].toolChoice !in {"", "auto", "none"} && CountCalls(w, rounds[i].batch, signature) >= 1
    ensures Done(w, PlayTurn(w, h, rounds), signature) >= Done(w, h, signature) + |rounds|
    decreases |rounds|
  {
    if rounds != [] {
      hide Play, Done, CountCalls, Possible;
      RoundCounts(w, h, rounds[0], signature);
      ForcedTurnGrows(w, Play(w, h, rounds[0]), rounds[1..], signature);
    }
  }
}
