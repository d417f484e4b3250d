/** The tool ledger said without signatures: what the same call is, which result an id has, which
    calls are dropped and which repetition is named. */
module LedgerMeaning {
  import opened Options
  import opened Seqs
  import opened Spaces
  import opened ToolLedger

  // ----- The same call ------------------------------------------------------------------------------

  // A law of the JSON library: a canonical text is not empty and is its own canonical text.
  ghost predicate Lawful(w: Words) {
    forall text :: w.canonicalJson(text).Some? ==>
                     var canonical := w.canonicalJson(text).value;
                     canonical != "" && w.canonicalJson(canonical) == Some(canonical)
  }

  // Blank arguments are the same; so are two JSON texts with one canonical text, and two other
  // texts that are equal but for white space around them.
  predicate SameArguments(w: Words, a: string, b: string) {
    if Blank(a) || Blank(b) then Blank(a) && Blank(b)
    else
      var x, y := w.canonicalJson(Trim(a)), w.canonicalJson(Trim(b));
      if x.Some? || y.Some? then x == y else Trim(a) == Trim(b)
  }

  predicate SameCall(w: Words, name: string, arguments: string, call: ToolCall) {
    name == call.name && SameArguments(w, arguments, call.arguments)
  }

  lemma CanonicalExactly(w: Words, a: string, b: string)
    requires Lawful(w)
    ensures CanonicalArguments(w, a) == CanonicalArguments(w, b) <==> SameArguments(w, a, b)
  {
    var _, _ := TrimExactly(a);
    var _, _ := TrimExactly(b);
    hide Trim, Blank;
  }

  // Two calls have one signature exactly when they are the same call.
  lemma SignatureIsTheCall(w: Words, name: string, arguments: string, call: ToolCall)
    requires Lawful(w) && '\0' !in name && '\0' !in call.name
    ensures CallSignature(w, name, arguments) == SignatureOf(w, call) <==> SameCall(w, name, arguments, call)
  {
    SignatureIdentifiesCall(w, name, arguments, call.name, call.arguments);
    CanonicalExactly(w, arguments, call.arguments);
  }

  // ----- What is dropped ---------------------------------------------------------------------------------

  // Two completed results belong to the same call as this one.
  ghost predicate TwiceDone(w: Words, completed: seq<Evidence>, call: ToolCall) {
    exists i, j :: 0 <= i < j < |completed| && IsDone(w, completed[i], call) && IsDone(w, completed[j], call)
  }

  predicate IsDone(w: Words, evidence: Evidence, call: ToolCall) {
    SameCall(w, evidence.name, evidence.arguments, call)
  }

  ghost predicate OnceDone(w: Words, completed: seq<Evidence>, call: ToolCall) {
    exists i :: 0 <= i < |completed| && IsDone(w, completed[i], call)
  }

  lemma DoneSplits(w: Words, completed: seq<Evidence>, call: ToolCall)
    requires completed != []
    ensures OnceDone(w, completed, call) <==> OnceDone(w, Init(completed), call) || IsDone(w, Last(completed), call)
    ensures TwiceDone(w, completed, call) <==>
            || TwiceDone(w, Init(completed), call)
            || (OnceDone(w, Init(completed), call) && IsDone(w, Last(completed), call))
  {
    hide IsDone;
    var before, n := Init(completed), |completed| - 1;
    if OnceDone(w, before, call) {
      var i :| 0 <= i < |before| && IsDone(w, before[i], call);
      assert IsDone(w, completed[i], call);
      if IsDone(w, Last(completed), call) {
        assert IsDone(w, completed[i], call) && IsDone(w, completed[n], call);
      }
    }
    if IsDone(w, Last(completed), call) {
      assert IsDone(w, completed[n], call);
    }
    if TwiceDone(w, before, call) {
      var i, j :| 0 <= i < j < |before| && IsDone(w, before[i], call) && IsDone(w, before[j], call);
      assert IsDone(w, completed[i], call) && IsDone(w, completed[j], call);
    }
    if TwiceDone(w, completed, call) {
      var i, j :| 0 <= i < j < |completed| && IsDone(w, completed[i], call) && IsDone(w, completed[j], call);
      assert IsDone(w, before[i], call);
      if j < n {
        assert IsDone(w, before[j], call);
      }
    }
    if OnceDone(w, completed, call) {
      var i :| 0 <= i < |completed| && IsDone(w, completed[i], call);
      if i < n {
        assert IsDone(w, before[i], call);
      }
    }
  }

  ghost predicate NoNul(completed: seq<Evidence>) {
    forall i :: 0 <= i < |completed| ==> '\0' !in completed[i].name
  }

  lemma {:induction false} CountMeans(w: Words, completed: seq<Evidence>, call: ToolCall)
    requires Lawful(w) && NoNul(completed) && '\0' !in call.name
    ensures CountSignature(w, completed, SignatureOf(w, call)) >= 1 <==> OnceDone(w, completed, call)
    ensures CountSignature(w, completed, SignatureOf(w, call)) >= 2 <==> TwiceDone(w, completed, call)
    decreases |completed|
  {
    if completed != [] {
      hide OnceDone, TwiceDone, SignatureOf, CallSignature, SameCall;
      CountMeans(w, Init(completed), call);
      DoneSplits(w, completed, call);
      SignatureIsTheCall(w, Last(completed).name, Last(completed).arguments, call);
    } else {
      assert !OnceDone(w, completed, call) && !TwiceDone(w, completed, call);
    }
  }

  // A call is dropped exactly when two completed results have its name and its arguments.
  lemma DroppedExactly(w: Words, completed: seq<Evidence>, call: ToolCall)
    requires Lawful(w) && NoNul(completed) && '\0' !in call.name
    ensures Settled(w, completed, call) <==> TwiceDone(w, completed, call)
  {
    CountMeans(w, completed, call);
  }

  // The calls of a batch that may go on, in order.
  ghost function Remaining(w: Words, completed: seq<Evidence>, calls: seq<ToolCall>): seq<ToolCall> {
    if calls == [] then []
    else Remaining(w, completed, Init(calls)) + if TwiceDone(w, completed, Last(calls)) then [] else [Last(calls)]
  }

  // Unless the request forces a call, the ones that are done twice are taken out and the others go
  // on in their order.
  lemma {:induction false} ForwardedExactly(w: Words, completed: seq<Evidence>, toolChoice: string,
                                            calls: seq<ToolCall>)
    requires Lawful(w) && NoNul(completed) && forall i :: 0 <= i < |calls| ==> '\0' !in calls[i].name
    ensures Forwarded(w, completed, toolChoice, calls)
            == if toolChoice in {"", "auto", "none"} then Remaining(w, completed, calls) else calls
    decreases |calls|
  {
    if calls != [] && toolChoice in {"", "auto", "none"} {
      hide TwiceDone, Settled;
      ForwardedExactly(w, completed, toolChoice, Init(calls));
      assert Last(calls) == calls[|calls| - 1];
      DroppedExactly(w, completed, Last(calls));
    }
  }

  // ----- Results -------------------------------------------------------------------------------------------

  // The k-th result is the last one given for this id.
  predicate LastFor(results: seq<Answer>, id: string, k: nat) {
    k < |results| && results[k].id == id && forall j :: k < j < |results| ==> results[j].id != id
  }

  // A call has the last result given for its id, if it has an id and one was given.
  lemma {:induction false} ResultIsTheLast(results: seq<Answer>, id: string)
    ensures ResultOf(results, id).Some? <==> id != "" && exists k: nat :: LastFor(results, id, k)
    ensures forall k: nat :: id != "" && LastFor(results, id, k) ==> ResultOf(results, id) == Some(results[k].content)
    decreases |results|
  {
    if id != "" && results != [] {
      if Last(results).id == id {
        assert LastFor(results, id, |results| - 1);
      } else {
        var before := Init(results);
        ResultIsTheLast(before, id);
        forall k: nat ensures LastFor(results, id, k) <==> LastFor(before, id, k) {
          LastForInit(results, id, k);
        }
        hide LastFor;
      }
    }
  }

  lemma LastForInit(results: seq<Answer>, id: string, k: nat)
    requires results != [] && Last(results).id != id
    ensures LastFor(results, id, k) <==> LastFor(Init(results), id, k)
    ensures LastFor(results, id, k) ==> k < |results| - 1 && Init(results)[k] == results[k]
  {
    var before := Init(results);
    forall j | 0 <= j < |before| ensures before[j] == results[j] {
    }
  }

  // ----- Repetition --------------------------------------------------------------------------------------------

  ghost predicate NoNuls(calls: seq<Call>) {
    forall i :: 0 <= i < |calls| ==> '\0' !in calls[i].name && '\0' !in calls[i].arguments
  }

  ghost predicate NoNulTexts(w: Words) {
    forall text :: w.canonicalJson(text).Some? ==> '\0' !in w.canonicalJson(text).value
  }

  function ToolOf(call: Call): ToolCall {
    ToolCall(call.name, call.arguments)
  }

  // The two calls are answered and are the same.
  predicate DoneAlike(w: Words, results: seq<Answer>, a: Call, b: Call) {
    ResultOf(results, a.id).Some? && ResultOf(results, b.id).Some? && SameCall(w, a.name, a.arguments, ToolOf(b))
  }

  // They also fail with the same message, numbers and tail aside.
  predicate FailAlike(w: Words, results: seq<Answer>, a: Call, b: Call) {
    && DoneAlike(w, results, a, b)
    && var x, y := ResultOf(results, a.id).value, ResultOf(results, b.id).value;
       w.reportsFailure(x) && w.reportsFailure(y) && w.normalFailure(x) == w.normalFailure(y)
  }

  ghost predicate SomeAlike(calls: seq<Call>, alike: (Call, Call) -> bool) {
    exists i, j :: 0 <= i < j < |calls| && alike(calls[i], calls[j])
  }

  ghost predicate EarlierAlike(calls: seq<Call>, alike: (Call, Call) -> bool, call: Call) {
    exists i :: 0 <= i < |calls| && alike(calls[i], call)
  }

  lemma SomeAlikeSplits(calls: seq<Call>, alike: (Call, Call) -> bool)
    requires calls != []
    ensures SomeAlike(calls, alike) <==>
            SomeAlike(Init(calls), alike) || EarlierAlike(Init(calls), alike, Last(calls))
  {
    var before, n := Init(calls), |calls| - 1;
    if SomeAlike(before, alike) {
      var i, j :| 0 <= i < j < |before| && alike(before[i], before[j]);
      assert alike(calls[i], calls[j]);
    }
    if EarlierAlike(before, alike, Last(calls)) {
      var i :| 0 <= i < |before| && alike(before[i], Last(calls));
      assert alike(calls[i], calls[n]);
    }
    if SomeAlike(calls, alike) {
      var i, j :| 0 <= i < j < |calls| && alike(calls[i], calls[j]);
      if j < n {
        assert alike(before[i], before[j]);
      } else {
        assert alike(before[i], Last(calls));
      }
    }
  }

  lemma EarlierAlikeSplits(calls: seq<Call>, alike: (Call, Call) -> bool, call: Call)
    requires calls != []
    ensures EarlierAlike(calls, alike, call) <==> EarlierAlike(Init(calls), alike, call) || alike(Last(calls), call)
  {
    var before := Init(calls);
    if EarlierAlike(before, alike, call) {
      var i :| 0 <= i < |before| && alike(before[i], call);
      assert alike(calls[i], call);
    }
    if alike(Last(calls), call) {
      assert alike(calls[|calls| - 1], call);
    }
    if EarlierAlike(calls, alike, call) {
      var i :| 0 <= i < |calls| && alike(calls[i], call);
      if i < |calls| - 1 {
        assert alike(before[i], call);
      }
    }
  }

  lemma NoNulsInit(calls: seq<Call>)
    requires NoNuls(calls) && calls != []
    ensures NoNuls(Init(calls)) && '\0' !in Last(calls).name && '\0' !in Last(calls).arguments
  {
    assert Last(calls) == calls[|calls| - 1];
  }

  lemma {:induction false} SignatureIsIn(w: Words, calls: seq<Call>, results: seq<Answer>, call: Call)
    requires Lawful(w) && NoNuls(calls) && '\0' !in call.name && ResultOf(results, call.id).Some?
    ensures CallSignature(w, call.name, call.arguments) in Signatures(w, calls, results)
            <==> EarlierAlike(calls, (a, b) => DoneAlike(w, results, a, b), call)
    decreases |calls|
  {
    var alike := (a, b) => DoneAlike(w, results, a, b);
    if calls == [] {
      assert !EarlierAlike(calls, alike, call);
    } else {
      hide NoNuls, CallSignature, SameCall, ResultOf;
      NoNulsInit(calls);
      SignatureIsIn(w, Init(calls), results, call);
      EarlierAlikeSplits(calls, alike, call);
      SignatureIsTheCall(w, Last(calls).name, Last(calls).arguments, ToolOf(call));
    }
  }

  // The ledger reports a repeated call exactly when two answered calls are the same.
  lemma {:induction false} RepeatedCallExactly(w: Words, calls: seq<Call>, results: seq<Answer>)
    requires Lawful(w) && NoNuls(calls)
    ensures Repeats(Signatures(w, calls, results)) <==> SomeAlike(calls, (a, b) => DoneAlike(w, results, a, b))
    decreases |calls|
  {
    var alike := (a, b) => DoneAlike(w, results, a, b);
    if calls == [] {
      assert !SomeAlike(calls, alike);
    } else {
      hide NoNuls, CallSignature, SameCall, ResultOf, Repeats;
      NoNulsInit(calls);
      RepeatedCallExactly(w, Init(calls), results);
      SomeAlikeSplits(calls, alike);
      var signatures := Signatures(w, Init(calls), results);
      if ResultOf(results, Last(calls).id).Some? {
        RepeatsSnoc(signatures, CallSignature(w, Last(calls).name, Last(calls).arguments));
        SignatureIsIn(w, Init(calls), results, Last(calls));
      } else {
        ConcatEmpty(signatures);
        UnansweredIsUnlike(w, Init(calls), results, Last(calls));
      }
    }
  }

  lemma UnansweredIsUnlike(w: Words, calls: seq<Call>, results: seq<Answer>, call: Call)
    requires ResultOf(results, call.id).None?
    ensures !EarlierAlike(calls, (a, b) => DoneAlike(w, results, a, b), call)
    ensures !EarlierAlike(calls, (a, b) => FailAlike(w, results, a, b), call)
  {
  }

  // ----- Repeated failures ---------------------------------------------------------------------------------------

  lemma CanonicalHasNoNul(w: Words, arguments: string)
    requires NoNulTexts(w) && '\0' !in arguments
    ensures '\0' !in CanonicalArguments(w, arguments)
  {
    var lead, trail := TrimExactly(arguments);
    var t := Trim(arguments);
    forall i | 0 <= i < |t| ensures t[i] != '\0' {
      assert arguments[|lead| + i] == t[i];
    }
    hide Trim;
  }

  lemma KeyParts(name: string, arguments: string, failure: string)
    requires '\0' !in name && '\0' !in arguments
    ensures var key := name + "\0" + arguments + "\0" + failure;
            && FirstIndex(key, '\0', 0) == |name| && key[..|name|] == name
            && FirstIndex(key[|name| + 1..], '\0', 0) == |arguments|
            && key[|name| + 1..][..|arguments|] == arguments && key[|name| + 1..][|arguments| + 1..] == failure
  {
    var key := name + "\0" + arguments + "\0" + failure;
    assert key == name + "\0" + (arguments + "\0" + failure);
    MarkStands(name, arguments + "\0" + failure);
    MarkStands(arguments, failure);
  }

  lemma FailureKeyExactly(w: Words, a: Call, x: string, b: Call, y: string)
    requires Lawful(w) && NoNulTexts(w)
    requires '\0' !in a.name && '\0' !in a.arguments && '\0' !in b.name && '\0' !in b.arguments
    ensures FailureKey(w, a, x) == FailureKey(w, b, y)
            <==> SameCall(w, a.name, a.arguments, ToolOf(b)) && w.normalFailure(x) == w.normalFailure(y)
  {
    CanonicalHasNoNul(w, a.arguments);
    CanonicalHasNoNul(w, b.arguments);
    CanonicalExactly(w, a.arguments, b.arguments);
    KeyParts(a.name, CanonicalArguments(w, a.arguments), w.normalFailure(x));
    KeyParts(b.name, CanonicalArguments(w, b.arguments), w.normalFailure(y));
    hide CanonicalArguments, SameArguments;
  }

  lemma {:induction false} FailureIsIn(w: Words, calls: seq<Call>, results: seq<Answer>, call: Call)
    requires Lawful(w) && NoNulTexts(w) && NoNuls(calls) && '\0' !in call.name && '\0' !in call.arguments
    requires ResultOf(results, call.id).Some? && w.reportsFailure(ResultOf(results, call.id).value)
    ensures FailureKey(w, call, ResultOf(results, call.id).value) in Failures(w, calls, results)
            <==> EarlierAlike(calls, (a, b) => FailAlike(w, results, a, b), call)
    decreases |calls|
  {
    var alike := (a, b) => FailAlike(w, results, a, b);
    if calls == [] {
      assert !EarlierAlike(calls, alike, call);
    } else {
      hide NoNuls, FailureKey, SameCall, ResultOf;
      NoNulsInit(calls);
      FailureIsIn(w, Init(calls), results, call);
      EarlierAlikeSplits(calls, alike, call);
      var last := ResultOf(results, Last(calls).id);
      if last.Some? {
        FailureKeyExactly(w, Last(calls), last.value, call, ResultOf(results, call.id).value);
      }
    }
  }

  // The ledger reports a repeated failure exactly when two answered calls are the same and fail the
  // same way.
  lemma {:induction false} RepeatedFailureExactly(w: Words, calls: seq<Call>, results: seq<Answer>)
    requires Lawful(w) && NoNulTexts(w) && NoNuls(calls)
    ensures Repeats(Failures(w, calls, results)) <==> SomeAlike(calls, (a, b) => FailAlike(w, results, a, b))
    decreases |calls|
  {
    var alike := (a, b) => FailAlike(w, results, a, b);
    if calls == [] {
      assert !SomeAlike(calls, alike);
    } else {
      hide NoNuls, FailureKey, SameCall, ResultOf, Repeats;
      NoNulsInit(calls);
      RepeatedFailureExactly(w, Init(calls), results);
      SomeAlikeSplits(calls, alike);
      var failures, answer := Failures(w, Init(calls), results), ResultOf(results, Last(calls).id);
      if answer.Some? && w.reportsFailure(answer.value) {
        RepeatsSnoc(failures, FailureKey(w, Last(calls), answer.value));
        FailureIsIn(w, Init(calls), results, Last(calls));
      } else {
        ConcatEmpty(failures);
        SucceededIsUnlike(w, Init(calls), results, Last(calls));
      }
    }
  }

  lemma SucceededIsUnlike(w: Words, calls: seq<Call>, results: seq<Answer>, call: Call)
    requires ResultOf(results, call.id).None? || !w.reportsFailure(ResultOf(results, call.id).value)
    ensures !EarlierAlike(calls, (a, b) => FailAlike(w, results, a, b), call)
  {
  }

  // ----- The name reported ----------------------------------------------------------------------------------------

  // The j-th call repeats an earlier one.
  ghost predicate RepeatsAt(calls: seq<Call>, alike: (Call, Call) -> bool, j: nat) {
    j < |calls| && EarlierAlike(calls[..j], alike, calls[j])
  }

  lemma RepeatsAtInit(calls: seq<Call>, alike: (Call, Call) -> bool, j: nat)
    requires j < |calls| - 1
    ensures RepeatsAt(calls, alike, j) <==> RepeatsAt(Init(calls), alike, j)
  {
    TakeOfTake(calls, j, |calls| - 1);
  }

  lemma {:induction false} SomeRepeatsAt(calls: seq<Call>, alike: (Call, Call) -> bool)
    ensures SomeAlike(calls, alike) <==> exists j :: 0 <= j < |calls| && RepeatsAt(calls, alike, j)
    decreases |calls|
  {
    if SomeAlike(calls, alike) {
      var i, j :| 0 <= i < j < |calls| && alike(calls[i], calls[j]);
      assert alike(calls[..j][i], calls[j]);
      assert RepeatsAt(calls, alike, j);
    }
    if j :| 0 <= j < |calls| && RepeatsAt(calls, alike, j) {
      var i :| 0 <= i < j && alike(calls[..j][i], calls[j]);
      assert alike(calls[i], calls[j]);
    }
  }

  // The last, or the first, call that repeats one.
  ghost predicate LastRepeat(calls: seq<Call>, alike: (Call, Call) -> bool, j: nat) {
    RepeatsAt(calls, alike, j) && forall k: nat :: j < k < |calls| ==> !RepeatsAt(calls, alike, k)
  }

  ghost predicate FirstRepeat(calls: seq<Call>, alike: (Call, Call) -> bool, j: nat) {
    RepeatsAt(calls, alike, j) && forall k: nat :: k < j ==> !RepeatsAt(calls, alike, k)
  }

  // The name reported is that of the last call that repeats a failure; without one, of the first
  // that repeats a call; without that either, none.
  ghost predicate NamesRepetition(name: string, calls: seq<Call>,
                                  fail: (Call, Call) -> bool, done: (Call, Call) -> bool) {
    && (forall j: nat :: LastRepeat(calls, fail, j) ==> name == calls[j].name)
    && (!SomeAlike(calls, fail) ==> forall j: nat :: FirstRepeat(calls, done, j) ==> name == calls[j].name)
    && (!SomeAlike(calls, fail) && !SomeAlike(calls, done) ==> name == "")
  }

  ghost predicate AllNamed(calls: seq<Call>) {
    forall i :: 0 <= i < |calls| ==> calls[i].name != ""
  }

  lemma LastRepeatInit(calls: seq<Call>, alike: (Call, Call) -> bool, j: nat)
    requires calls != [] && LastRepeat(calls, alike, j) && j < |calls| - 1
    ensures LastRepeat(Init(calls), alike, j) && !RepeatsAt(calls, alike, |calls| - 1)
  {
    forall k: nat | k < |calls| - 1 ensures RepeatsAt(calls, alike, k) <==> RepeatsAt(Init(calls), alike, k) {
      RepeatsAtInit(calls, alike, k);
    }
    hide RepeatsAt;
  }

  lemma FirstRepeatInit(calls: seq<Call>, alike: (Call, Call) -> bool, j: nat)
    requires calls != [] && FirstRepeat(calls, alike, j)
    ensures j < |calls|
    ensures j < |calls| - 1 ==> FirstRepeat(Init(calls), alike, j)
    ensures j == |calls| - 1 ==> !SomeAlike(Init(calls), alike)
  {
    assert RepeatsAt(calls, alike, j);
    forall k: nat | k < |calls| - 1 ensures RepeatsAt(calls, alike, k) <==> RepeatsAt(Init(calls), alike, k) {
      RepeatsAtInit(calls, alike, k);
    }
    SomeRepeatsAt(Init(calls), alike);
  }

  lemma {:induction false} SomeHasLastAndFirst(calls: seq<Call>, alike: (Call, Call) -> bool, n: nat)
    requires n < |calls| && RepeatsAt(calls, alike, n)
    ensures exists j: nat :: LastRepeat(calls, alike, j)
    ensures exists j: nat :: FirstRepeat(calls, alike, j)
  {
    hide RepeatsAt;
    LastFrom(calls, alike, n);
    FirstFrom(calls, alike, n);
  }

  lemma {:induction false} LastFrom(calls: seq<Call>, alike: (Call, Call) -> bool, n: nat)
    requires n < |calls| && RepeatsAt(calls, alike, n)
    ensures exists j: nat :: LastRepeat(calls, alike, j)
    decreases |calls| - n
  {
    hide RepeatsAt;
    if k: nat :| n < k < |calls| && RepeatsAt(calls, alike, k) {
      LastFrom(calls, alike, k);
    } else {
      assert LastRepeat(calls, alike, n);
    }
  }

  lemma {:induction false} FirstFrom(calls: seq<Call>, alike: (Call, Call) -> bool, n: nat)
    requires n < |calls| && RepeatsAt(calls, alike, n)
    ensures exists j: nat :: FirstRepeat(calls, alike, j)
    decreases n
  {
    hide RepeatsAt;
    if k: nat :| k < n && RepeatsAt(calls, alike, k) {
      FirstFrom(calls, alike, k);
    } else {
      assert FirstRepeat(calls, alike, n);
    }
  }

  // A repetition has a name.
  lemma RepeatedIsNamed(name: string, calls: seq<Call>, fail: (Call, Call) -> bool, done: (Call, Call) -> bool)
    requires NamesRepetition(name, calls, fail, done) && AllNamed(calls)
    ensures SomeAlike(calls, fail) || SomeAlike(calls, done) ==> name != ""
  {
    SomeRepeatsAt(calls, fail);
    SomeRepeatsAt(calls, done);
    hide RepeatsAt, SomeAlike;
    if SomeAlike(calls, fail) {
      var n :| 0 <= n < |calls| && RepeatsAt(calls, fail, n);
      SomeHasLastAndFirst(calls, fail, n);
      var j: nat :| LastRepeat(calls, fail, j);
      RepeatIsCall(calls, fail, j);
    } else if SomeAlike(calls, done) {
      var n :| 0 <= n < |calls| && RepeatsAt(calls, done, n);
      SomeHasLastAndFirst(calls, done, n);
      var j: nat :| FirstRepeat(calls, done, j);
      RepeatIsCall(calls, done, j);
    }
  }

  lemma RepeatIsCall(calls: seq<Call>, alike: (Call, Call) -> bool, j: nat)
    requires RepeatsAt(calls, alike, j)
    ensures j < |calls|
  {
  }

  lemma NextNamesLast(name: string, calls: seq<Call>, fail: (Call, Call) -> bool, done: (Call, Call) -> bool, j: nat)
    requires calls != [] && NamesRepetition(name, Init(calls), fail, done) && LastRepeat(calls, fail, j)
    ensures j < |calls| && RepeatsAt(calls, fail, j)
    ensures j < |calls| - 1 ==> !RepeatsAt(calls, fail, |calls| - 1) && name == calls[j].name
  {
    RepeatIsCall(calls, fail, j);
    if j < |calls| - 1 {
      LastRepeatInit(calls, fail, j);
    }
  }

  lemma NextNamesFirst(name: string, calls: seq<Call>, fail: (Call, Call) -> bool, done: (Call, Call) -> bool, j: nat)
    requires calls != [] && NamesRepetition(name, Init(calls), fail, done) && FirstRepeat(calls, done, j)
    requires !SomeAlike(Init(calls), fail)
    ensures j < |calls|
    ensures if j < |calls| - 1 then name == calls[j].name else name == "" && RepeatsAt(calls, done, |calls| - 1)
  {
    FirstRepeatInit(calls, done, j);
    hide SomeAlike, RepeatsAt;
  }

  lemma LastRepeatsAt(calls: seq<Call>, alike: (Call, Call) -> bool)
    requires calls != []
    ensures RepeatsAt(calls, alike, |calls| - 1) <==> EarlierAlike(Init(calls), alike, Last(calls))
    ensures SomeAlike(calls, alike) <==> SomeAlike(Init(calls), alike) || RepeatsAt(calls, alike, |calls| - 1)
  {
    SomeAlikeSplits(calls, alike);
  }

  lemma NamesOneMore(name: string, calls: seq<Call>,
                     fail: (Call, Call) -> bool, done: (Call, Call) -> bool, next: string)
    requires calls != [] && NamesRepetition(name, Init(calls), fail, done) && AllNamed(calls)
    requires next == if EarlierAlike(Init(calls), fail, Last(calls)) then Last(calls).name
                     else if name == "" && EarlierAlike(Init(calls), done, Last(calls)) then Last(calls).name else name
    ensures NamesRepetition(next, calls, fail, done)
  {
    hide RepeatsAt, SomeAlike, EarlierAlike, LastRepeat, FirstRepeat;
    assert AllNamed(Init(calls));
    RepeatedIsNamed(name, Init(calls), fail, done);
    LastRepeatsAt(calls, fail);
    LastRepeatsAt(calls, done);
    forall j: nat | LastRepeat(calls, fail, j) ensures j < |calls| && next == calls[j].name {
      NextNamesLast(name, calls, fail, done, j);
      assert j < |calls| - 1 ==> calls[j].name != "";
    }
    if !SomeAlike(calls, fail) {
      forall j: nat | FirstRepeat(calls, done, j) ensures j < |calls| && next == calls[j].name {
        NextNamesFirst(name, calls, fail, done, j);
        assert calls[j].name != "";
      }
    }
  }

  lemma {:induction false} RepetitionIsNamed(w: Words, calls: seq<Call>, results: seq<Answer>)
    requires Lawful(w) && NoNulTexts(w) && NoNuls(calls)
    requires AllNamed(calls)
    ensures NamesRepetition(Repetition(w, calls, results), calls, (a, b) => FailAlike(w, results, a, b),
                            (a, b) => DoneAlike(w, results, a, b))
    decreases |calls|
  {
    var fail, done := (a, b) => FailAlike(w, results, a, b), (a, b) => DoneAlike(w, results, a, b);
    if calls == [] {
      assert !SomeAlike(calls, fail);
    } else {
      hide NoNuls, FailureKey, CallSignature, ResultOf, NamesRepetition, SameCall, EarlierAlike;
      NoNulsInit(calls);
      assert AllNamed(Init(calls));
      RepetitionIsNamed(w, Init(calls), results);
      var answer := ResultOf(results, Last(calls).id);
      if answer.Some? {
        SignatureIsIn(w, Init(calls), results, Last(calls));
        if w.reportsFailure(answer.value) {
          FailureIsIn(w, Init(calls), results, Last(calls));
        } else {
          SucceededIsUnlike(w, Init(calls), results, Last(calls));
        }
      } else {
        UnansweredIsUnlike(w, Init(calls), results, Last(calls));
      }
      NamesOneMore(Repetition(w, Init(calls), results), calls, fail, done, Repetition(w, calls, results));
    }
  }
}
