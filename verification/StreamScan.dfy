/** The incremental scanner of a chat-completion object: which text position holds the first
    choice's message content, where the object ends, and how the answer changes as text arrives.

    `ScanFrom` is the scanner's run over the text from one index; the methods are its loops. */
module StreamScan {
  import opened Options
  import opened JsonString

  // ----- State -----------------------------------------------------------------------

  // Inside(start, escaped): in a string whose first body character is at `start`.
  datatype Mode = Outside | Inside(start: nat, escaped: bool)

  // Depths are -1 until the corresponding container has been entered.
  datatype ScanState = ScanState(
    mode: Mode, curly: int, square: int,
    choicesArray: int, choiceObject: int, messageObject: int,
    expectChoices: int, expectMessage: int, shape: bool)

  const INITIAL := ScanState(Outside, 0, 0, -1, -1, -1, -1, -1, false)

  // How a run ends: at the content key (its value starts at `value`), at the brace that closes
  // the object, at a bracket that cannot be matched, or because the text ran out.
  datatype Outcome =
    | Found(value: nat, shape: bool)
    | Closed(end: nat, shape: bool)
    | Broken(shape: bool)
    | Exhausted(shape: bool)

  datatype StepResult = Next(state: ScanState) | Stop(outcome: Outcome)

  datatype Candidate = Candidate(
    start: nat, end: nat, complete: bool, shapeFound: bool, contentFound: bool, content: string)

  predicate IsWs(c: char) { c == ' ' || c == '\t' || c == '\r' || c == '\n' }

  function SkipWs(raw: string, i: nat): (j: nat)
    requires i <= |raw|
    ensures i <= j <= |raw|
    decreases |raw| - i
  {
    if i < |raw| && IsWs(raw[i]) then SkipWs(raw, i + 1) else i
  }

  method SkipStreamWhitespace(raw: string, index: nat) returns (r: nat)
    requires index <= |raw|
    ensures r == SkipWs(raw, index)
  {
    r := index;
    while r < |raw| && IsWs(raw[r])
      invariant index <= r <= |raw|
      invariant SkipWs(raw, r) == SkipWs(raw, index)
    {
      r := r + 1;
    }
  }

  // ----- Strings ----------------------------------------------------------------------

  // The index of the quote that closes the string being read, or the end of the text.
  function CloseQuote(raw: string, i: nat, escaped: bool): (j: nat)
    requires i <= |raw|
    ensures i <= j <= |raw|
    ensures j < |raw| ==> raw[j] == '"'
    decreases |raw| - i
  {
    if i == |raw| then i
    else if escaped then CloseQuote(raw, i + 1, false)
    else if raw[i] == '\\' then CloseQuote(raw, i + 1, true)
    else if raw[i] == '"' then i
    else CloseQuote(raw, i + 1, false)
  }

  method ScanStreamJsonString(raw: string, start: nat) returns (body: string, complete: bool)
    requires start <= |raw|
    ensures body == raw[start..CloseQuote(raw, start, false)]
    ensures complete == (CloseQuote(raw, start, false) < |raw|)
  {
    var escaped := false;
    var index := start;
    while index < |raw|
      invariant start <= index <= |raw|
      invariant CloseQuote(raw, index, escaped) == CloseQuote(raw, start, false)
    {
      var c := raw[index];
      if escaped {
        escaped := false;
      } else if c == '\\' {
        escaped := true;
      } else if c == '"' {
        return raw[start..index], true;
      }
      index := index + 1;
    }
    return raw[start..], false;
  }

  // ----- The end of an object ------------------------------------------------------------

  // (index after the bracket that closes the first one opened, true), or (length of the text, false).
  function BalancedFrom(raw: string, i: nat, opening: char, closing: char,
                        depth: int, inString: bool, escaped: bool): (r: (nat, bool))
    requires i <= |raw|
    ensures i <= r.0 <= |raw| && (r.1 ==> i < r.0) && (!r.1 ==> r.0 == |raw|)
    decreases |raw| - i
  {
    if i == |raw| then (i, false)
    else if inString then
      if escaped then BalancedFrom(raw, i + 1, opening, closing, depth, true, false)
      else if raw[i] == '\\' then BalancedFrom(raw, i + 1, opening, closing, depth, true, true)
      else BalancedFrom(raw, i + 1, opening, closing, depth, raw[i] != '"', false)
    else if raw[i] == '"' then BalancedFrom(raw, i + 1, opening, closing, depth, true, false)
    else if raw[i] == opening then BalancedFrom(raw, i + 1, opening, closing, depth + 1, false, false)
    else if raw[i] == closing then
      if depth == 1 then (i + 1, true)
      else BalancedFrom(raw, i + 1, opening, closing, depth - 1, false, false)
    else BalancedFrom(raw, i + 1, opening, closing, depth, false, false)
  }

  function JsonEndFrom(raw: string, i: nat, depth: int, inString: bool, escaped: bool): (nat, bool)
    requires i <= |raw|
  {
    BalancedFrom(raw, i, '{', '}', depth, inString, escaped)
  }

  function JsonEnd(raw: string, start: nat): (nat, bool)
    requires start <= |raw|
  {
    JsonEndFrom(raw, start, 0, false, false)
  }

  method StreamJsonEnd(raw: string, start: nat) returns (end: nat, complete: bool)
    requires start <= |raw|
    ensures (end, complete) == JsonEnd(raw, start)
  {
    var depth := 0;
    var inString, escaped := false, false;
    var index := start;
    while index < |raw|
      invariant start <= index <= |raw|
      invariant !inString ==> !escaped
      invariant JsonEndFrom(raw, index, depth, inString, escaped) == JsonEnd(raw, start)
    {
      var c := raw[index];
      if inString {
        if escaped {
          escaped := false;
        } else if c == '\\' {
          escaped := true;
        } else if c == '"' {
          inString := false;
        }
      } else if c == '"' {
        inString := true;
      } else if c == '{' {
        depth := depth + 1;
      } else if c == '}' {
        depth := depth - 1;
        if depth == 0 {
          return index + 1, true;
        }
      }
      index := index + 1;
    }
    return |raw|, false;
  }

  // The batch scanner of the final parser: the balanced segment from `start`, or "". The source
  // trims the segment, which changes nothing: it starts with an opening and ends with a closing
  // bracket.
  method ExtractBalancedJsonSegment(raw: string, start: nat, opening: char) returns (segment: string)
    requires start < |raw| && raw[start] == opening
    requires opening == '{' || opening == '['
    ensures var (end, complete) := BalancedFrom(raw, start, opening,
                                                if opening == '{' then '}' else ']', 0, false, false);
            segment == if complete then raw[start..end] else ""
  {
    var closing := if opening == '{' then '}' else ']';
    var depth := 0;
    var inString, escaped := false, false;
    var i := start;
    while i < |raw|
      invariant start <= i <= |raw|
      invariant !inString ==> !escaped
      invariant BalancedFrom(raw, i, opening, closing, depth, inString, escaped)
             == BalancedFrom(raw, start, opening, closing, 0, false, false)
    {
      var c := raw[i];
      if inString {
        if escaped {
          escaped := false;
        } else if c == '\\' {
          escaped := true;
        } else if c == '"' {
          inString := false;
        }
      } else if c == '"' {
        inString := true;
      } else if c == opening {
        depth := depth + 1;
      } else if c == closing {
        depth := depth - 1;
        if depth == 0 {
          return raw[start..i + 1];
        }
      }
      i := i + 1;
    }
    return "";
  }

  // ----- The scanner ------------------------------------------------------------------------

  predicate WellPlaced(raw: string, i: nat, st: ScanState) {
    i <= |raw| && (st.mode.Inside? ==> st.mode.start <= i)
  }

  predicate AtChoicesKey(st: ScanState) {
    st.curly == 1 && st.square == 0
  }

  predicate AtMessageKey(st: ScanState) {
    st.choiceObject > 0 && st.curly == st.choiceObject && st.square == st.choicesArray
  }

  predicate AtContentKey(st: ScanState) {
    st.messageObject > 0 && st.curly == st.messageObject && st.square == st.choicesArray
  }

  predicate ColonNext(raw: string, i: nat)
    requires i <= |raw|
  {
    SkipWs(raw, i) < |raw| && raw[SkipWs(raw, i)] == ':'
  }

  // Where the value after the colon starts.
  function ValueAt(raw: string, i: nat): (v: nat)
    requires i <= |raw| && ColonNext(raw, i)
    ensures i < v <= |raw|
  {
    SkipWs(raw, SkipWs(raw, i) + 1)
  }

  // What a key does when the scanner, outside strings again, knows where its value starts.
  function KeyResult(st: ScanState, token: string, value: nat): StepResult {
    if AtChoicesKey(st) && token == "choices" then Next(st.(expectChoices := value))
    else if AtMessageKey(st) && token == "message" then Next(st.(expectMessage := value))
    else if AtContentKey(st) && token == "content" then Stop(Found(value, st.shape))
    else Next(st)
  }

  // The string that started at st.mode.start closes at index i.
  function CloseString(raw: string, i: nat, st: ScanState): StepResult
    requires WellPlaced(raw, i, st) && i < |raw| && st.mode.Inside?
  {
    var out := st.(mode := Outside);
    var token := Unquote(raw[st.mode.start..i]);
    if token.Some? && ColonNext(raw, i + 1) then KeyResult(out, token.value, ValueAt(raw, i + 1))
    else Next(out)
  }

  function OpenCurly(i: nat, st: ScanState): ScanState {
    var s := st.(curly := st.curly + 1);
    if i == s.expectMessage then s.(messageObject := s.curly, shape := true)
    else if s.choicesArray > 0 && s.choiceObject < 0 && s.square == s.choicesArray && s.curly == 2
    then s.(choiceObject := s.curly)
    else s
  }

  function OpenSquare(i: nat, st: ScanState): ScanState {
    var s := st.(square := st.square + 1);
    if i == s.expectChoices then s.(choicesArray := s.square) else s
  }

  function Step(raw: string, i: nat, st: ScanState): (r: StepResult)
    requires WellPlaced(raw, i, st) && i < |raw|
    ensures r.Next? ==> WellPlaced(raw, i + 1, r.state)
  {
    var c := raw[i];
    match st.mode
    case Inside(start, escaped) =>
      if escaped then Next(st.(mode := Inside(start, false)))
      else if c == '\\' then Next(st.(mode := Inside(start, true)))
      else if c != '"' then Next(st)
      else CloseString(raw, i, st)
    case Outside =>
      if c == '"' then Next(st.(mode := Inside(i + 1, false)))
      else if c == '{' then Next(OpenCurly(i, st))
      else if c == '}' then
        if st.curly == 1 then Stop(Closed(i + 1, st.shape))
        else if st.curly < 1 then Stop(Broken(st.shape))
        else Next(st.(curly := st.curly - 1))
      else if c == '[' then Next(OpenSquare(i, st))
      else if c == ']' then
        if st.square < 1 then Stop(Broken(st.shape)) else Next(st.(square := st.square - 1))
      else Next(st)
  }

  function ScanFrom(raw: string, i: nat, st: ScanState): (o: Outcome)
    requires WellPlaced(raw, i, st)
    decreases |raw| - i
  {
    if i == |raw| then Exhausted(st.shape)
    else
      match Step(raw, i, st)
      case Next(s) => ScanFrom(raw, i + 1, s)
      case Stop(o) => o
  }

  // The text of the content value as far as it has arrived; only a string has any.
  function ContentAt(raw: string, value: nat): string {
    if value < |raw| && raw[value] == '"' then
      var close := CloseQuote(raw, value + 1, false);
      DecodePrefix(raw[value + 1..close], close < |raw|)
    else ""
  }

  // None is the scanner's refusal: no message object yet, or unmatched brackets.
  function Scan(raw: string, start: int): (r: Option<Candidate>) {
    if start < 0 || start >= |raw| || raw[start] != '{' then None
    else
      match ScanFrom(raw, start, INITIAL)
      case Found(value, shape) =>
        var (end, complete) := JsonEnd(raw, start);
        Some(Candidate(start, end, complete, shape, true, ContentAt(raw, value)))
      case Closed(end, shape) =>
        if shape then Some(Candidate(start, end, true, true, false, "")) else None
      case Broken(_) => None
      case Exhausted(shape) =>
        if shape then Some(Candidate(start, |raw|, false, true, false, "")) else None
  }

  // The scanner's decision at a closing quote: is this one of the three keys it follows?
  method ScanKey(raw: string, index: nat, st: ScanState) returns (r: StepResult)
    requires WellPlaced(raw, index, st) && index < |raw| && st.mode.Inside?
    ensures r == CloseString(raw, index, st)
  {
    var out := st.(mode := Outside);
    hide Unquote;
    var token := Unquote(raw[st.mode.start..index]);
    if token.Some? {
      var colon := SkipStreamWhitespace(raw, index + 1);
      if colon < |raw| && raw[colon] == ':' {
        var value := SkipStreamWhitespace(raw, colon + 1);
        if st.curly == 1 && st.square == 0 && token.value == "choices" {
          out := out.(expectChoices := value);
        } else if st.choiceObject > 0 && st.curly == st.choiceObject && st.square == st.choicesArray
                  && token.value == "message" {
          out := out.(expectMessage := value);
        } else if st.messageObject > 0 && st.curly == st.messageObject && st.square == st.choicesArray
                  && token.value == "content" {
          return Stop(Found(value, st.shape));
        }
      }
    }
    return Next(out);
  }

  method ReadContent(raw: string, value: nat) returns (content: string)
    requires value <= |raw|
    ensures content == ContentAt(raw, value)
  {
    content := "";
    if value < |raw| && raw[value] == '"' {
      var body, closed := ScanStreamJsonString(raw, value + 1);
      content := DecodeStreamJsonPrefix(body, closed);
    }
  }

  method ScanStreamContentCandidate(raw: string, start: int) returns (r: Option<Candidate>)
    ensures r == Scan(raw, start)
  {
    if start < 0 || start >= |raw| || raw[start] != '{' {
      return None;
    }
    var st := INITIAL;
    var index := start;
    while index < |raw|
      invariant start <= index <= |raw|
      invariant WellPlaced(raw, index, st)
      invariant ScanFrom(raw, index, st) == ScanFrom(raw, start, INITIAL)
    {
      var c := raw[index];
      if st.mode.Inside? {
        if st.mode.escaped {
          st := st.(mode := Inside(st.mode.start, false));
        } else if c == '\\' {
          st := st.(mode := Inside(st.mode.start, true));
        } else if c == '"' {
          var key := ScanKey(raw, index, st);
          if key.Stop? {
            var content := ReadContent(raw, key.outcome.value);
            var end, complete := StreamJsonEnd(raw, start);
            return Some(Candidate(start, end, complete, st.shape, true, content));
          }
          st := key.state;
        }
      } else if c == '"' {
        st := st.(mode := Inside(index + 1, false));
      } else if c == '{' {
        st := st.(curly := st.curly + 1);
        if index == st.expectMessage {
          st := st.(messageObject := st.curly, shape := true);
        } else if st.choicesArray > 0 && st.choiceObject < 0
                  && st.square == st.choicesArray && st.curly == 2 {
          st := st.(choiceObject := st.curly);
        }
      } else if c == '}' {
        st := st.(curly := st.curly - 1);
        if st.curly == 0 {
          return if st.shape then Some(Candidate(start, index + 1, true, true, false, "")) else None;
        }
        if st.curly < 0 {
          return None;
        }
      } else if c == '[' {
        st := st.(square := st.square + 1);
        if index == st.expectChoices {
          st := st.(choicesArray := st.square);
        }
      } else if c == ']' {
        st := st.(square := st.square - 1);
        if st.square < 0 {
          return None;
        }
      }
      index := index + 1;
    }
    return if st.shape then Some(Candidate(start, |raw|, false, true, false, "")) else None;
  }
}
