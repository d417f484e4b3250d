/** How the scanner's answers on a beginning of the text relate to its answers on the whole. */
module StreamPrefix {
  import opened Seqs
  import opened JsonString
  import opened StreamScan

  predicate Blank(c: char) { IsWs(c) || c == ':' }

  predicate AllBlank(raw: string, i: nat, j: nat)
    requires i <= j <= |raw|
  {
    forall x :: i <= x < j ==> Blank(raw[x])
  }

  lemma {:induction false} SkipWsPasses(raw: string, i: nat)
    requires i <= |raw|
    ensures var j := SkipWs(raw, i);
            (forall x :: i <= x < j ==> IsWs(raw[x])) && (j < |raw| ==> !IsWs(raw[j]))
    decreases |raw| - i
  {
    if i < |raw| && IsWs(raw[i]) {
      SkipWsPasses(raw, i + 1);
    }
  }

  lemma {:induction false} SkipWsReaches(raw: string, i: nat, j: nat)
    requires i <= j <= |raw|
    requires forall x :: i <= x < j ==> IsWs(raw[x])
    requires j < |raw| ==> !IsWs(raw[j])
    ensures SkipWs(raw, i) == j
    decreases j - i
  {
    if i < j {
      SkipWsReaches(raw, i + 1, j);
    }
  }

  lemma {:induction false} SkipWsCut(raw: string, cut: nat, i: nat)
    requires i <= cut <= |raw|
    ensures SkipWs(raw[..cut], i) == if SkipWs(raw, i) < cut then SkipWs(raw, i) else cut
    decreases cut - i
  {
    if i < cut && IsWs(raw[i]) {
      SkipWsCut(raw, cut, i + 1);
    }
  }

  // White space and colons outside strings leave the scanner as it is.
  lemma {:induction false} BlanksPass(raw: string, i: nat, j: nat, st: ScanState)
    requires i <= j <= |raw| && AllBlank(raw, i, j) && st.mode.Outside?
    ensures ScanFrom(raw, i, st) == ScanFrom(raw, j, st)
    decreases j - i
  {
    if i < j {
      BlanksPass(raw, i + 1, j, st);
    }
  }

  lemma {:induction false} BlanksPassEnd(raw: string, i: nat, j: nat, depth: int)
    requires i <= j <= |raw| && AllBlank(raw, i, j)
    ensures JsonEndFrom(raw, i, depth, false, false) == JsonEndFrom(raw, j, depth, false, false)
    decreases j - i
  {
    if i < j {
      BlanksPassEnd(raw, i + 1, j, depth);
    }
  }

  // Whatever a run finds lies beyond where it started, and the shape flag is never lowered.
  lemma {:induction false} OutcomeLiesAhead(raw: string, i: nat, st: ScanState)
    requires WellPlaced(raw, i, st)
    ensures var o := ScanFrom(raw, i, st);
            && (o.Found? ==> o.value > i) && (o.Closed? ==> o.end > i)
            && (st.shape ==> o.shape)
    decreases |raw| - i
  {
    if i < |raw| {
      var r := Step(raw, i, st);
      if r.Next? {
        OutcomeLiesAhead(raw, i + 1, r.state);
      }
    }
  }

  // What a run on the first `cut` characters may answer when the whole text answers `whole`.
  predicate CutAnswer(whole: Outcome, part: Outcome, cut: nat) {
    match whole
    case Found(value, shape) =>
      if value < cut then part == whole
      else part == Found(cut, shape) || (part.Exhausted? && (part.shape ==> shape))
    case Closed(end, shape) =>
      if end <= cut then part == whole else part.Exhausted? && (part.shape ==> shape)
    case Broken(shape) => part == whole || (part.Exhausted? && (part.shape ==> shape))
    case Exhausted(shape) => part.Exhausted? && (part.shape ==> shape)
  }

  lemma {:induction false} ScanOfPrefix(raw: string, cut: nat, i: nat, st: ScanState)
    requires WellPlaced(raw, i, st) && i <= cut <= |raw|
    ensures CutAnswer(ScanFrom(raw, i, st), ScanFrom(raw[..cut], i, st), cut)
    decreases cut - i
  {
    var part := raw[..cut];
    if i == cut {
      OutcomeLiesAhead(raw, i, st);
    } else if raw[i] == '"' && st.mode.Inside? && !st.mode.escaped {
      ScanOfPrefixAtQuote(raw, cut, i, st);
    } else {
      var r := Step(raw, i, st);
      assert r == Step(part, i, st);
      if r.Next? {
        ScanOfPrefix(raw, cut, i + 1, r.state);
      }
    }
  }

  // Between a key and its value there are only blanks.
  lemma ValueAfterBlanks(raw: string, j: nat)
    requires j <= |raw| && ColonNext(raw, j)
    ensures AllBlank(raw, j, ValueAt(raw, j))
  {
    SkipWsPasses(raw, j);
    SkipWsPasses(raw, SkipWs(raw, j) + 1);
  }

  // Looking ahead for a colon and a value on a beginning of the text: unless both answers agree,
  // the cut hides one of the two and nothing but blanks is left before it.
  lemma LookAheadOfPrefix(raw: string, cut: nat, j: nat)
    requires j <= cut <= |raw|
    ensures var part := raw[..cut];
            || (ColonNext(part, j) == ColonNext(raw, j)
                && (ColonNext(raw, j) ==> ValueAt(part, j) == ValueAt(raw, j)))
            || (AllBlank(raw, j, cut)
                && (ColonNext(raw, j) ==> ValueAt(raw, j) >= cut)
                && (ColonNext(part, j) ==> ColonNext(raw, j) && ValueAt(part, j) == cut))
  {
    SkipWsCut(raw, cut, j);
    SkipWsPasses(raw, j);
    var colon := SkipWs(raw, j);
    if colon < cut && raw[colon] == ':' {
      SkipWsCut(raw, cut, colon + 1);
      SkipWsPasses(raw, colon + 1);
    }
  }

  lemma CloseStringOfPrefix(raw: string, cut: nat, i: nat, st: ScanState)
    requires WellPlaced(raw, i, st) && i < cut <= |raw| && st.mode.Inside?
    ensures var whole, seen := CloseString(raw, i, st), CloseString(raw[..cut], i, st);
            || whole == seen
            || (&& AllBlank(raw, i + 1, cut) && AllBlank(raw[..cut], i + 1, cut)
                && (whole.Stop? ==> whole.outcome.Found? && whole.outcome.value >= cut
                                    && whole.outcome.shape == st.shape)
                && (whole.Next? ==> whole.state.mode.Outside? && whole.state.shape == st.shape)
                && (seen.Stop? ==> whole.Stop? && seen.outcome == Found(cut, st.shape))
                && (seen.Next? ==> seen.state.mode.Outside? && seen.state.shape == st.shape))
  {
    hide Unquote, ColonNext, ValueAt;
    SliceOfTake(raw, cut, st.mode.start, i);
    LookAheadOfPrefix(raw, cut, i + 1);
  }

  // A closing quote ends the run only as a content key, in front of its value.
  lemma QuoteStopsAtValue(raw: string, i: nat, st: ScanState)
    requires WellPlaced(raw, i, st) && i < |raw| && st.mode.Inside? && CloseString(raw, i, st).Stop?
    ensures ColonNext(raw, i + 1) && CloseString(raw, i, st) == Stop(Found(ValueAt(raw, i + 1), st.shape))
  {
    hide Unquote;
  }

  lemma {:induction false} ScanOfPrefixAtQuote(raw: string, cut: nat, i: nat, st: ScanState)
    requires WellPlaced(raw, i, st) && i < cut <= |raw|
    requires raw[i] == '"' && st.mode.Inside? && !st.mode.escaped
    ensures CutAnswer(ScanFrom(raw, i, st), ScanFrom(raw[..cut], i, st), cut)
    decreases cut - i, 0
  {
    hide CloseString;
    var part := raw[..cut];
    var whole, seen := CloseString(raw, i, st), CloseString(part, i, st);
    assert Step(raw, i, st) == whole && Step(part, i, st) == seen;
    if whole != seen {
      BlanksAfterQuote(raw, cut, i, st);
    } else if whole.Next? {
      ScanOfPrefix(raw, cut, i + 1, whole.state);
    } else {
      QuoteStopsAtValue(part, i, st);
    }
  }

  // The cut hides what tells a key from another string: only blanks are left before it.
  lemma BlanksAfterQuote(raw: string, cut: nat, i: nat, st: ScanState)
    requires WellPlaced(raw, i, st) && i < cut <= |raw|
    requires raw[i] == '"' && st.mode.Inside? && !st.mode.escaped
    requires CloseString(raw, i, st) != CloseString(raw[..cut], i, st)
    ensures CutAnswer(ScanFrom(raw, i, st), ScanFrom(raw[..cut], i, st), cut)
  {
    hide CloseString, AllBlank;
    var part := raw[..cut];
    var whole, seen := CloseString(raw, i, st), CloseString(part, i, st);
    assert Step(raw, i, st) == whole && Step(part, i, st) == seen;
    CloseStringOfPrefix(raw, cut, i, st);
    if seen.Next? {
      BlanksPass(part, i + 1, cut, seen.state);
    }
    if whole.Next? {
      BlanksPass(raw, i + 1, cut, whole.state);
      OutcomeLiesAhead(raw, cut, whole.state);
    }
  }

  lemma {:induction false} BalancedOfPrefix(raw: string, cut: nat, i: nat, depth: int, inString: bool, escaped: bool)
    requires i <= cut <= |raw|
    ensures var (end, complete) := JsonEndFrom(raw, i, depth, inString, escaped);
            JsonEndFrom(raw[..cut], i, depth, inString, escaped)
            == if complete && end <= cut then (end, true) else (cut, false)
    decreases cut - i
  {
    if i < cut {
      if inString {
        if escaped {
          BalancedOfPrefix(raw, cut, i + 1, depth, true, false);
        } else if raw[i] == '\\' {
          BalancedOfPrefix(raw, cut, i + 1, depth, true, true);
        } else {
          BalancedOfPrefix(raw, cut, i + 1, depth, raw[i] != '"', false);
        }
      } else if raw[i] == '"' {
        BalancedOfPrefix(raw, cut, i + 1, depth, true, false);
      } else if raw[i] == '{' {
        BalancedOfPrefix(raw, cut, i + 1, depth + 1, false, false);
      } else if raw[i] == '}' {
        if depth != 1 {
          BalancedOfPrefix(raw, cut, i + 1, depth - 1, false, false);
        }
      } else {
        BalancedOfPrefix(raw, cut, i + 1, depth, false, false);
      }
    }
  }

  // Where the braces balance for a counter that stands where the scanner stands.
  function EndFromState(raw: string, i: nat, st: ScanState): (nat, bool)
    requires i <= |raw|
  {
    JsonEndFrom(raw, i, st.curly, st.mode.Inside?, st.mode.Inside? && st.mode.escaped)
  }

  // One step of the scanner and one of the counter: they stay together, and stop together at the
  // closing brace.
  lemma BracesFollowScanner(raw: string, i: nat, st: ScanState)
    requires WellPlaced(raw, i, st) && i < |raw|
    ensures var r := Step(raw, i, st);
            && (r.Next? ==> EndFromState(raw, i, st) == EndFromState(raw, i + 1, r.state))
            && (r.Stop? && r.outcome.Closed? ==> EndFromState(raw, i, st) == (r.outcome.end, true))
            && (r.Stop? ==> !r.outcome.Exhausted?)
  {
    hide Unquote, ColonNext, ValueAt;
  }

  // The scanner and the counter of braces agree: where the scanner closes the object the braces
  // balance, and while it has not come to an end they do not.
  lemma {:induction false} EndOfOutcome(raw: string, i: nat, st: ScanState)
    requires WellPlaced(raw, i, st)
    ensures var r := EndFromState(raw, i, st);
            var o := ScanFrom(raw, i, st);
            && (o.Closed? ==> r == (o.end, true))
            && (o.Exhausted? ==> !r.1)
    decreases |raw| - i
  {
    if i < |raw| {
      BracesFollowScanner(raw, i, st);
      hide Step, EndFromState;
      var r := Step(raw, i, st);
      if r.Next? {
        EndOfOutcome(raw, i + 1, r.state);
      }
    }
  }

  lemma FoundAtQuote(raw: string, i: nat, st: ScanState)
    requires WellPlaced(raw, i, st) && i < |raw|
    requires Step(raw, i, st).Stop? && Step(raw, i, st).outcome.Found?
    ensures raw[i] == '"' && st.mode.Inside? && !st.mode.escaped
    ensures ColonNext(raw, i + 1) && Step(raw, i, st).outcome.value == ValueAt(raw, i + 1)
  {
  }

  lemma ValueBeforeEnd(raw: string, i: nat, depth: int)
    requires i < |raw| && raw[i] == '"' && ColonNext(raw, i + 1)
    ensures var r := JsonEndFrom(raw, i, depth, true, false);
            r.1 ==> r.0 > ValueAt(raw, i + 1)
  {
    ValueAfterBlanks(raw, i + 1);
    BlanksPassEnd(raw, i + 1, ValueAt(raw, i + 1), depth);
  }

  // The content the scanner finds lies inside the object: no end is reported before it.
  lemma {:induction false} FoundBeforeEnd(raw: string, i: nat, st: ScanState)
    requires WellPlaced(raw, i, st) && ScanFrom(raw, i, st).Found?
    ensures var r := EndFromState(raw, i, st);
            r.1 ==> r.0 > ScanFrom(raw, i, st).value
    decreases |raw| - i
  {
    BracesFollowScanner(raw, i, st);
    var r := Step(raw, i, st);
    if r.Stop? {
      FoundAtQuote(raw, i, st);
      ValueBeforeEnd(raw, i, st.curly);
    } else {
      FoundBeforeEnd(raw, i + 1, r.state);
    }
  }

  lemma {:induction false} CloseQuoteOfPrefix(raw: string, cut: nat, i: nat, escaped: bool)
    requires i <= cut <= |raw|
    ensures var close := CloseQuote(raw, i, escaped);
            CloseQuote(raw[..cut], i, escaped) == if close < cut then close else cut
    decreases cut - i
  {
    if i < cut && (escaped || raw[i] != '"') {
      CloseQuoteOfPrefix(raw, cut, i + 1, !escaped && raw[i] == '\\');
    }
  }

  // The body that starts at `value` is a finished, legal string.
  predicate LegalStringAt(raw: string, value: nat) {
    value < |raw| && raw[value] == '"' &&
    var close := CloseQuote(raw, value + 1, false);
    close < |raw| && Unquote(raw[value + 1..close]).Some?
  }

  function StringAt(raw: string, value: nat): string
    requires LegalStringAt(raw, value)
  {
    Unquote(raw[value + 1..CloseQuote(raw, value + 1, false)]).value
  }

  // On any beginning of the text the content seen is a beginning of the final content, and once
  // the closing quote has arrived it is the final content.
  lemma ContentOfPrefix(raw: string, cut: nat, value: nat)
    requires LegalStringAt(raw, value) && cut <= |raw|
    ensures ContentAt(raw[..cut], value) <= StringAt(raw, value)
    ensures CloseQuote(raw, value + 1, false) < cut ==>
              ContentAt(raw[..cut], value) == StringAt(raw, value)
  {
    if value < cut {
      CloseQuoteOfPrefix(raw, cut, value + 1, false);
      if CloseQuote(raw, value + 1, false) < cut {
        FinishedContent(raw, cut, value);
      } else {
        UnfinishedContent(raw, cut, value, CloseQuote(raw, value + 1, false));
      }
    }
  }

  lemma FinishedContent(raw: string, cut: nat, value: nat)
    requires LegalStringAt(raw, value) && value < cut <= |raw|
    requires CloseQuote(raw[..cut], value + 1, false) == CloseQuote(raw, value + 1, false) < cut
    ensures ContentAt(raw[..cut], value) == StringAt(raw, value)
  {
    hide CloseQuote;
    var close := CloseQuote(raw, value + 1, false);
    SliceOfTake(raw, cut, value + 1, close);
    CompleteBodyDecodes(raw[value + 1..close]);
  }

  lemma UnfinishedContent(raw: string, cut: nat, value: nat, close: nat)
    requires value < cut <= close < |raw| && raw[value] == '"'
    requires Unquote(raw[value + 1..close]).Some?
    requires CloseQuote(raw[..cut], value + 1, false) == cut
    ensures ContentAt(raw[..cut], value) <= Unquote(raw[value + 1..close]).value
  {
    hide Unquote, CloseQuote;
    var n := cut - (value + 1);
    SliceOfTake(raw, cut, value + 1, cut);
    SliceOfSlice(raw, value + 1, close, n);
    PartialDecodeIsPrefix(raw[value + 1..close], n);
  }

  // ----- Contents that arrive without second thoughts -------------------------------------------

  // The part of the string at `value` that the text holds, and whether the text closes it.
  function BodyAt(raw: string, value: nat): (string, bool)
    requires value < |raw|
  {
    var close := CloseQuote(raw, value + 1, false);
    (raw[value + 1..close], close < |raw|)
  }

  // The test on the text: the value is no string, or a string whose body is in reach.
  predicate InReachAt(raw: string, value: nat) {
    value < |raw| && raw[value] == '"' ==> InReach(BodyAt(raw, value).0, BodyAt(raw, value).1)
  }

  // Whatever has been read of the value on a beginning of the text is a beginning of what the
  // whole text reads there.
  ghost predicate Steady(raw: string, value: nat) {
    forall cut :: 0 <= cut <= |raw| ==> ContentAt(raw[..cut], value) <= ContentAt(raw, value)
  }

  lemma ContentOfCut(raw: string, cut: nat, value: nat)
    requires value < cut <= |raw| && raw[value] == '"'
    ensures var body := BodyAt(raw, value).0; var k := cut - (value + 1);
            ContentAt(raw[..cut], value)
            == if k <= |body| then DecodePrefix(body[..k], false) else ContentAt(raw, value)
  {
    hide DecodePrefix;
    CloseQuoteOfPrefix(raw, cut, value + 1, false);
    var close := CloseQuote(raw, value + 1, false);
    if close < cut {
      SliceOfTake(raw, cut, value + 1, close);
    } else {
      SliceOfTake(raw, cut, value + 1, cut);
      SliceOfSlice(raw, value + 1, close, cut - (value + 1));
    }
  }

  lemma SteadyExactly(raw: string, value: nat)
    ensures Steady(raw, value) <==> InReachAt(raw, value)
  {
    hide InReach, DecodePrefix, CloseQuote;
    if value < |raw| && raw[value] == '"' {
      var (body, complete) := BodyAt(raw, value);
      assert ContentAt(raw, value) == DecodePrefix(body, complete);
      ReadingsAgreeExactly(body, complete);
      if InReachAt(raw, value) {
        forall cut | 0 <= cut <= |raw| ensures ContentAt(raw[..cut], value) <= ContentAt(raw, value) {
          if value < cut {
            ContentOfCut(raw, cut, value);
          }
        }
      } else {
        var k :| 0 <= k <= |body| && !(DecodePrefix(body[..k], false) <= DecodePrefix(body, complete));
        ContentOfCut(raw, value + 1 + k, value);
      }
    }
  }

  lemma LegalStringIsInReach(raw: string, value: nat)
    requires LegalStringAt(raw, value)
    ensures InReachAt(raw, value) && ContentAt(raw, value) == StringAt(raw, value)
  {
    LegalIsInReach(BodyAt(raw, value).0);
    CompleteBodyDecodes(BodyAt(raw, value).0);
  }

  // A content key found before the cut is found in every text with the same beginning.
  lemma FoundStays(raw: string, other: string, cut: nat, i: nat, st: ScanState)
    requires WellPlaced(raw, i, st) && i <= cut <= |raw| && cut <= |other| && raw[..cut] == other[..cut]
    requires ScanFrom(raw, i, st).Found? && ScanFrom(raw, i, st).value < cut
    ensures ScanFrom(other, i, st) == ScanFrom(raw, i, st)
  {
    ScanOfPrefix(raw, cut, i, st);
    ScanOfPrefix(other, cut, i, st);
  }
}
