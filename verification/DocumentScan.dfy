/** The scanner on well-formed documents: character by character it does what the reading of the
    document's tree says. */
module DocumentScan {
  import opened Options
  import opened Seqs
  import opened JsonString
  import opened StreamScan
  import opened StreamPrefix
  import opened ChatDocument
  import opened DocumentReading

  // Marks an index a proof asks about: the quantifier below is used at marked indices only.
  predicate Asked(k: int) { true }

  // The text `t` stands at index i.
  predicate At(raw: string, i: nat, t: string) {
    i + |t| <= |raw| && forall k {:trigger Asked(k)} :: Asked(k) && 0 <= k < |t| ==> raw[i + k] == t[k]
  }

  lemma AtSplit(raw: string, i: nat, a: string, b: string)
    requires At(raw, i, a + b)
    ensures At(raw, i, a) && At(raw, i + |a|, b)
  {
    forall k | Asked(k) && 0 <= k < |a| ensures raw[i + k] == a[k] {
      assert (a + b)[k] == a[k];
    }
    forall k | Asked(k) && 0 <= k < |b| ensures raw[i + |a| + k] == b[k] {
      assert Asked(|a| + k);
      assert (a + b)[|a| + k] == b[k];
    }
  }

  lemma AtChar(raw: string, i: nat, t: string, k: nat)
    requires At(raw, i, t) && k < |t|
    ensures raw[i + k] == t[k]
  {
    assert Asked(k);
  }

  lemma SpacesAreBlank(raw: string, i: nat, t: string)
    requires At(raw, i, t) && Spaces(t)
    ensures forall x :: i <= x < i + |t| ==> IsWs(raw[x])
  {
    forall x | i <= x < i + |t| ensures IsWs(raw[x]) {
      AtChar(raw, i, t, x - i);
    }
  }

  // ----- Strings -----------------------------------------------------------------------

  lemma {:induction false} ScanToCloseQuote(raw: string, i: nat, st: ScanState)
    requires WellPlaced(raw, i, st) && st.mode.Inside?
    ensures var close := CloseQuote(raw, i, st.mode.escaped);
            close < |raw| ==>
              ScanFrom(raw, i, st) == ScanFrom(raw, close, st.(mode := Inside(st.mode.start, false)))
    decreases |raw| - i
  {
    if i < |raw| && (st.mode.escaped || raw[i] != '"') {
      ScanToCloseQuote(raw, i + 1, Step(raw, i, st).state);
    }
  }

  // Reading one legal unit leaves the scanner of strings unescaped.
  lemma UnitPasses(raw: string, i: nat, u: Unit)
    requires LegalUnit(u) && At(raw, i, Spell(u))
    ensures CloseQuote(raw, i, false) == CloseQuote(raw, i + |Spell(u)|, false)
  {
    match u
    case Plain(c) =>
      AtChar(raw, i, [c], 0);
    case Short(c) =>
      AtChar(raw, i, ['\\', c], 0);
    case Hex(digits) =>
      HexPasses(raw, i, digits);
  }

  lemma HexPasses(raw: string, i: nat, digits: string)
    requires IsHex4(digits) && At(raw, i, ['\\', 'u'] + digits)
    ensures CloseQuote(raw, i, false) == CloseQuote(raw, i + 6, false)
  {
    AtSplit(raw, i, ['\\', 'u'], digits);
    AtChar(raw, i, ['\\', 'u'], 0);
    assert CloseQuote(raw, i, false) == CloseQuote(raw, i + 1, true) == CloseQuote(raw, i + 2, false);
    HexDigitPasses(raw, i + 2, digits, 0);
    HexDigitPasses(raw, i + 2, digits, 1);
    HexDigitPasses(raw, i + 2, digits, 2);
    HexDigitPasses(raw, i + 2, digits, 3);
  }

  lemma HexDigitPasses(raw: string, i: nat, digits: string, k: nat)
    requires At(raw, i, digits) && k < |digits| && IsHex(digits[k])
    ensures CloseQuote(raw, i + k, false) == CloseQuote(raw, i + k + 1, false)
  {
    AtChar(raw, i, digits, k);
  }

  // A legal body closes at the quote printed after it.
  lemma {:induction false} LegalBodyCloses(raw: string, i: nat, units: seq<Unit>)
    requires AllLegal(units) && At(raw, i, Body(units))
    requires i + |Body(units)| < |raw| && raw[i + |Body(units)|] == '"'
    ensures CloseQuote(raw, i, false) == i + |Body(units)|
    decreases |units|
  {
    if units != [] {
      AtSplit(raw, i, Spell(units[0]), Body(units[1..]));
      UnitPasses(raw, i, units[0]);
      LegalBodyCloses(raw, i + |Spell(units[0])|, units[1..]);
    }
  }

  lemma QuotedParts(raw: string, i: nat, units: seq<Unit>)
    requires At(raw, i, Quoted(units))
    ensures |Quoted(units)| == |Body(units)| + 2
    ensures At(raw, i + 1, Body(units)) && i + 1 + |Body(units)| < |raw|
    ensures raw[i] == '"' && raw[i + 1 + |Body(units)|] == '"'
  {
    AtSplit(raw, i, ['"'] + Body(units), ['"']);
    AtSplit(raw, i, ['"'], Body(units));
    AtChar(raw, i, ['"'], 0);
    AtChar(raw, i + 1 + |Body(units)|, ['"'], 0);
  }

  // A legal body between quotes is read as its decoding.
  lemma BodyInQuotes(raw: string, i: nat, units: seq<Unit>)
    requires AllLegal(units) && At(raw, i, Body(units))
    requires i + |Body(units)| < |raw| && raw[i + |Body(units)|] == '"'
    ensures CloseQuote(raw, i, false) == i + |Body(units)|
    ensures Unquote(raw[i..i + |Body(units)|]) == Some(Decoded(units))
  {
    hide Decoded, CloseQuote;
    LegalBodyCloses(raw, i, units);
    AtSlice(raw, i, Body(units));
    UnquoteBody(units);
  }

  lemma AtSlice(raw: string, i: nat, t: string)
    requires At(raw, i, t)
    ensures raw[i..i + |t|] == t
  {
    forall k | 0 <= k < |t| ensures raw[i..i + |t|][k] == t[k] {
      AtChar(raw, i, t, k);
    }
  }

  lemma ScanString(raw: string, i: nat, close: nat, token: string, st: ScanState)
    requires i < close < |raw| && raw[i] == '"' && raw[close] == '"' && st.mode.Outside?
    requires CloseQuote(raw, i + 1, false) == close && Unquote(raw[i + 1..close]) == Some(token)
    ensures !ColonNext(raw, close + 1) ==> ScanFrom(raw, i, st) == ScanFrom(raw, close + 1, st)
    ensures ColonNext(raw, close + 1) ==>
              var r := KeyResult(st, token, ValueAt(raw, close + 1));
              ScanFrom(raw, i, st) == if r.Next? then ScanFrom(raw, close + 1, r.state) else r.outcome
  {
    var inside := st.(mode := Inside(i + 1, false));
    ScanToCloseQuote(raw, i + 1, inside);
    assert inside.(mode := Outside) == st;
    assert Step(raw, i, st) == Next(inside);
    assert Step(raw, close, inside) == CloseString(raw, close, inside);
  }

  // A string: the scanner comes out at the closing quote's decision.
  lemma WalkQuoted(raw: string, i: nat, units: seq<Unit>, st: ScanState)
    requires At(raw, i, Quoted(units)) && AllLegal(units) && st.mode.Outside?
    ensures var after := i + |Quoted(units)|;
            && after <= |raw|
            && (!ColonNext(raw, after) ==> ScanFrom(raw, i, st) == ScanFrom(raw, after, st))
            && (ColonNext(raw, after) ==>
                  var r := KeyResult(st, Decoded(units), ValueAt(raw, after));
                  ScanFrom(raw, i, st) == if r.Next? then ScanFrom(raw, after, r.state) else r.outcome)
  {
    hide ScanFrom, Decoded, Unquote, CloseQuote;
    QuotedParts(raw, i, units);
    BodyInQuotes(raw, i + 1, units);
    ScanString(raw, i, i + 1 + |Body(units)|, Decoded(units), st);
  }

  // ----- Walking over what is not on the path ----------------------------------------------

  // Characters that change nothing outside strings.
  predicate Plain(c: char) {
    c != '"' && c != '{' && c != '}' && c != '[' && c != ']'
  }

  lemma {:induction false} PlainPass(raw: string, i: nat, j: nat, st: ScanState)
    requires i <= j <= |raw| && st.mode.Outside?
    requires forall x :: i <= x < j ==> Plain(raw[x])
    ensures ScanFrom(raw, i, st) == ScanFrom(raw, j, st)
    decreases j - i
  {
    if i < j {
      PlainPass(raw, i + 1, j, st);
    }
  }

  // The scanner's state just before position i, with these counts and the path led so far.
  predicate Stands(st: ScanState, i: nat, curly: nat, square: nat, phase: Phase) {
    && st.mode.Outside? && st.curly == curly && st.square == square
    && st.choicesArray == (if phase.Start? then -1 else 1)
    && st.choiceObject == (if phase.Start? || phase.Choices? then -1 else 2)
    && st.messageObject == (if phase.Message? then 3 else -1)
    && st.shape == phase.Message?
    && st.expectChoices < i && st.expectMessage < i
  }

  // The same in front of a value: its key may have announced it.
  predicate StandsBefore(st: ScanState, i: nat, curly: nat, square: nat, phase: Phase, role: Role) {
    && Stands(st, i + 1, curly, square, phase)
    && (st.expectChoices == i <==> role.ChoicesValue?)
    && (st.expectMessage == i <==> role.MessageValue?)
    && (role.ChoicesValue? ==> square == 0)
    && (role.MessageValue? ==> curly == 2 && (phase.Choice? || phase.Message?))
  }

  // The scanner reads on from i what the tree says: it stops at the content, or comes to j.
  predicate Follows(raw: string, i: nat, st: ScanState, j: nat, after: ScanState,
                    curly: nat, square: nat, r: Reading) {
    WellPlaced(raw, i, st) &&
    if r.Hit? then ScanFrom(raw, i, st) == Found(r.pos, true) && At(raw, r.pos, Print(r.value)) && Legal(r.value)
    else
      && WellPlaced(raw, j, after) && ScanFrom(raw, i, st) == ScanFrom(raw, j, after)
      && Stands(after, j, curly, square, r.phase)
  }

  predicate Separator(raw: string, j: nat) {
    j < |raw| && (raw[j] == ',' || raw[j] == ']' || raw[j] == '}')
  }

  lemma MemberParts(raw: string, p: nat, m: Member)
    requires At(raw, p, PrintMember(m))
    ensures At(raw, p, m.lead) && At(raw, p + |m.lead|, Quoted(m.key))
    ensures At(raw, p + |m.lead| + |Quoted(m.key)|, m.mid + ":" + m.item.lead)
    ensures ValuePos(p, m) == p + |m.lead| + |Quoted(m.key)| + |m.mid| + 1 + |m.item.lead|
    ensures At(raw, ValuePos(p, m), Print(m.item.value))
    ensures At(raw, ValuePos(p, m) + |Print(m.item.value)|, m.item.trail)
  {
    hide Print, Quoted, At;
    AtSplit(raw, p, PrintKey(m), Print(m.item.value) + m.item.trail);
    AtSplit(raw, ValuePos(p, m), Print(m.item.value), m.item.trail);
    AtSplit(raw, p, m.lead + Quoted(m.key), m.mid + ":" + m.item.lead);
    AtSplit(raw, p, m.lead, Quoted(m.key));
  }

  // Between the key's closing quote and the value there is white space around one colon.
  lemma ColonThenValue(raw: string, i: nat, m: Member)
    requires At(raw, i, m.mid + ":" + m.item.lead) && LegalMember(m)
    requires At(raw, i + |m.mid| + 1 + |m.item.lead|, Print(m.item.value))
    ensures ColonNext(raw, i) && ValueAt(raw, i) == i + |m.mid| + 1 + |m.item.lead|
    ensures AllBlank(raw, i, i + |m.mid| + 1 + |m.item.lead|)
  {
    hide Print, Legal, AllLegal;
    var colon := i + |m.mid|;
    var value := colon + 1 + |m.item.lead|;
    AtSplit(raw, i, m.mid + ":", m.item.lead);
    AtSplit(raw, i, m.mid, ":");
    AtChar(raw, colon, ":", 0);
    SpacesAreBlank(raw, i, m.mid);
    SpacesAreBlank(raw, colon + 1, m.item.lead);
    PrintOpens(m.item.value);
    AtChar(raw, value, Print(m.item.value), 0);
    SkipWsReaches(raw, i, colon);
    SkipWsReaches(raw, colon + 1, value);
  }

  // A key of which the value's position is known.
  lemma WalkKeyTo(raw: string, i: nat, key: seq<Unit>, value: nat, st: ScanState)
    requires At(raw, i, Quoted(key)) && AllLegal(key) && st.mode.Outside?
    requires i + |Quoted(key)| <= value <= |raw| && AllBlank(raw, i + |Quoted(key)|, value)
    requires ColonNext(raw, i + |Quoted(key)|) && ValueAt(raw, i + |Quoted(key)|) == value
    ensures var r := KeyResult(st, Decoded(key), value);
            ScanFrom(raw, i, st) == if r.Next? then ScanFrom(raw, value, r.state) else r.outcome
  {
    hide ScanFrom, Decoded;
    WalkQuoted(raw, i, key, st);
    var r := KeyResult(st, Decoded(key), value);
    if r.Next? {
      BlanksPass(raw, i + |Quoted(key)|, value, r.state);
    }
  }

  lemma WalkKeyParts(raw: string, p: nat, m: Member, value: nat, st: ScanState)
    requires LegalMember(m) && st.mode.Outside?
    requires At(raw, p, m.lead) && At(raw, p + |m.lead|, Quoted(m.key))
    requires At(raw, p + |m.lead| + |Quoted(m.key)|, m.mid + ":" + m.item.lead)
    requires value == p + |m.lead| + |Quoted(m.key)| + |m.mid| + 1 + |m.item.lead|
    requires At(raw, value, Print(m.item.value))
    ensures var r := KeyResult(st, Decoded(m.key), value);
            ScanFrom(raw, p, st) == if r.Next? then ScanFrom(raw, value, r.state) else r.outcome
  {
    hide ScanFrom, Decoded, Quoted, Print, KeyResult;
    var quote := p + |m.lead|;
    SpacesAreBlank(raw, p, m.lead);
    BlanksPass(raw, p, quote, st);
    ColonThenValue(raw, quote + |Quoted(m.key)|, m);
    WalkKeyTo(raw, quote, m.key, value, st);
  }

  // A member's key is decided by its decoded name, with the scanner placed at the value.
  lemma WalkKey(raw: string, p: nat, m: Member, st: ScanState)
    requires At(raw, p, PrintMember(m)) && LegalMember(m) && st.mode.Outside?
    ensures var r := KeyResult(st, Decoded(m.key), ValuePos(p, m));
            && ValuePos(p, m) <= |raw|
            && ScanFrom(raw, p, st) == if r.Next? then ScanFrom(raw, ValuePos(p, m), r.state) else r.outcome
  {
    hide ScanFrom, Decoded;
    MemberParts(raw, p, m);
    WalkKeyParts(raw, p, m, ValuePos(p, m), st);
  }

  // A value is never followed by a colon.
  lemma NoColonAfter(raw: string, i: nat, trail: string)
    requires At(raw, i, trail) && Spaces(trail) && Separator(raw, i + |trail|)
    ensures !ColonNext(raw, i)
  {
    SpacesAreBlank(raw, i, trail);
    SkipWsReaches(raw, i, i + |trail|);
  }

  // ----- The scanner on values -----------------------------------------------------------------

  // Opening and closing an array around a part that is read to its end.
  lemma AroundArray(raw: string, i: nat, j: nat, st: ScanState, last: ScanState,
                    curly: nat, square: nat, phase: Phase, role: Role, r: Reading)
      returns (after: ScanState)
    requires i < j < |raw| && raw[i] == '[' && raw[j] == ']'
    requires StandsBefore(st, i, curly, square, phase, role)
    requires Follows(raw, i + 1, OpenSquare(i, st), j, last, curly, square + 1, r)
    ensures Follows(raw, i, st, j + 1, after, curly, square, r)
  {
    assert Step(raw, i, st) == Next(OpenSquare(i, st));
    after := last.(square := square);
  }

  lemma AroundObject(raw: string, i: nat, j: nat, st: ScanState, last: ScanState,
                     curly: nat, square: nat, phase: Phase, role: Role, r: Reading)
      returns (after: ScanState)
    requires i < j < |raw| && raw[i] == '{' && raw[j] == '}' && curly >= 1
    requires StandsBefore(st, i, curly, square, phase, role)
    requires Follows(raw, i + 1, OpenCurly(i, st), j, last, curly + 1, square, r)
    ensures Follows(raw, i, st, j + 1, after, curly, square, r)
  {
    assert Step(raw, i, st) == Next(OpenCurly(i, st));
    after := last.(curly := curly);
  }

  // The state behind an opening bracket, and behind an opening brace.
  lemma BracketOpens(st: ScanState, i: nat, curly: nat, square: nat, phase: Phase, role: Role)
    requires StandsBefore(st, i, curly, square, phase, role)
    ensures Stands(OpenSquare(i, st), i + 1, curly, square + 1, InArray(phase, role))
  {
  }

  lemma BraceOpens(st: ScanState, i: nat, curly: nat, square: nat, phase: Phase, role: Role)
    requires StandsBefore(st, i, curly, square, phase, role)
    ensures Stands(OpenCurly(i, st), i + 1, curly + 1, square, InObject(curly, square, phase, role))
  {
  }

  lemma {:induction false} ReadsValue(raw: string, i: nat, v: Value, st: ScanState,
                                      curly: nat, square: nat, phase: Phase, role: Role)
      returns (after: ScanState)
    requires Legal(v) && At(raw, i, Print(v)) && curly >= 1 && !ColonNext(raw, i + |Print(v)|)
    requires StandsBefore(st, i, curly, square, phase, role)
    ensures Follows(raw, i, st, i + |Print(v)|, after, curly, square, Read(v, i, curly, square, phase, role))
    decreases v, 1
  {
    hide ScanFrom, Decoded, ReadItems, ReadMembers;
    after := st;
    match v
    case Str(units) =>
      WalkQuoted(raw, i, units, st);
    case Atom(text) =>
      AtomIsPlain(raw, i, text);
      PlainPass(raw, i, i + |text|, st);
    case Arr(_, _) =>
      after := ReadsArrayValue(raw, i, v, st, curly, square, phase, role);
    case Obj(_, _) =>
      after := ReadsObjectValue(raw, i, v, st, curly, square, phase, role);
  }

  lemma {:induction false} ReadsArrayValue(raw: string, i: nat, v: Value, st: ScanState,
                                           curly: nat, square: nat, phase: Phase, role: Role)
      returns (after: ScanState)
    requires v.Arr? && Legal(v) && At(raw, i, Print(v)) && curly >= 1
    requires StandsBefore(st, i, curly, square, phase, role)
    ensures Follows(raw, i, st, i + |Print(v)|, after, curly, square, Read(v, i, curly, square, phase, role))
    decreases v, 0
  {
    hide Follows, StandsBefore, Stands, OpenSquare, InArray, ReadItems;
    var inner := if v.items == [] then v.gap else PrintItems(v.items);
    var p := InArray(phase, role);
    BracketParts(raw, i, "[", inner, "]");
    BracketOpens(st, i, curly, square, phase, role);
    var last := ReadsArray(raw, i + 1, v.gap, v.items, OpenSquare(i, st), curly, square + 1, p);
    after := AroundArray(raw, i, i + 1 + |inner|, st, last, curly, square, phase, role,
                         ReadItems(v.items, i + 1, curly, square + 1, p));
  }

  lemma {:induction false} ReadsObjectValue(raw: string, i: nat, v: Value, st: ScanState,
                                            curly: nat, square: nat, phase: Phase, role: Role)
      returns (after: ScanState)
    requires v.Obj? && Legal(v) && At(raw, i, Print(v)) && curly >= 1
    requires StandsBefore(st, i, curly, square, phase, role)
    ensures Follows(raw, i, st, i + |Print(v)|, after, curly, square, Read(v, i, curly, square, phase, role))
    decreases v, 0
  {
    hide Follows, StandsBefore, Stands, OpenCurly, InObject, ReadMembers;
    var inner := if v.members == [] then v.gap else PrintMembers(v.members);
    var p := InObject(curly, square, phase, role);
    BracketParts(raw, i, "{", inner, "}");
    BraceOpens(st, i, curly, square, phase, role);
    var last := ReadsObject(raw, i + 1, v.gap, v.members, OpenCurly(i, st), curly + 1, square, p);
    after := AroundObject(raw, i, i + 1 + |inner|, st, last, curly, square, phase, role,
                          ReadMembers(v.members, i + 1, curly + 1, square, p));
  }

  // What stands between the brackets of an array.
  lemma {:induction false} ReadsArray(raw: string, i: nat, gap: string, items: seq<Item>, st: ScanState,
                                      curly: nat, square: nat, phase: Phase)
      returns (after: ScanState)
    requires Spaces(gap) && (forall k :: 0 <= k < |items| ==> LegalItem(items[k]))
    requires curly >= 1 && Stands(st, i, curly, square, phase)
    requires var inner := if items == [] then gap else PrintItems(items);
             At(raw, i, inner) && i + |inner| < |raw| && raw[i + |inner|] == ']'
    ensures Follows(raw, i, st, i + |if items == [] then gap else PrintItems(items)|, after, curly, square,
                    ReadItems(items, i, curly, square, phase))
    decreases items, 1
  {
    if items == [] {
      SpacesAreBlank(raw, i, gap);
      BlanksPass(raw, i, i + |gap|, st);
      after := st;
    } else {
      after := ReadsItems(raw, i, items, st, curly, square, phase);
    }
  }

  // What stands between the braces of an object.
  lemma {:induction false} ReadsObject(raw: string, i: nat, gap: string, members: seq<Member>, st: ScanState,
                                       curly: nat, square: nat, phase: Phase)
      returns (after: ScanState)
    requires Spaces(gap) && (forall k :: 0 <= k < |members| ==> LegalMember(members[k]))
    requires curly >= 1 && Stands(st, i, curly, square, phase)
    requires var inner := if members == [] then gap else PrintMembers(members);
             At(raw, i, inner) && i + |inner| < |raw| && raw[i + |inner|] == '}'
    ensures Follows(raw, i, st, i + |if members == [] then gap else PrintMembers(members)|, after, curly, square,
                    ReadMembers(members, i, curly, square, phase))
    decreases members, 1
  {
    if members == [] {
      SpacesAreBlank(raw, i, gap);
      BlanksPass(raw, i, i + |gap|, st);
      after := st;
    } else {
      after := ReadsMembers(raw, i, members, st, curly, square, phase);
    }
  }

  lemma AtomIsPlain(raw: string, i: nat, text: string)
    requires At(raw, i, text) && Legal(Atom(text))
    ensures forall x :: i <= x < i + |text| ==> Plain(raw[x])
  {
    forall x | i <= x < i + |text| ensures Plain(raw[x]) {
      AtChar(raw, i, text, x - i);
    }
  }

  lemma BracketParts(raw: string, i: nat, open: string, inner: string, close: string)
    requires At(raw, i, open + inner + close) && |open| == |close| == 1
    ensures raw[i] == open[0] && At(raw, i + 1, inner)
    ensures i + 1 + |inner| < |raw| && raw[i + 1 + |inner|] == close[0]
  {
    AtSplit(raw, i, open + inner, close);
    AtSplit(raw, i, open, inner);
    AtChar(raw, i, open, 0);
    AtChar(raw, i + 1 + |inner|, close, 0);
  }

  lemma ItemParts(raw: string, i: nat, it: Item)
    requires At(raw, i, PrintItem(it))
    ensures At(raw, i, it.lead) && At(raw, i + |it.lead|, Print(it.value))
    ensures At(raw, i + |it.lead| + |Print(it.value)|, it.trail)
  {
    AtSplit(raw, i, it.lead + Print(it.value), it.trail);
    AtSplit(raw, i, it.lead, Print(it.value));
  }

  // Blanks after something that has been read.
  lemma ThenBlanks(raw: string, i: nat, st: ScanState, trail: nat, j: nat, after: ScanState,
                   curly: nat, square: nat, r: Reading)
    requires Follows(raw, i, st, trail, after, curly, square, r)
    requires trail <= j <= |raw| && (forall x :: trail <= x < j ==> Plain(raw[x]))
    ensures Follows(raw, i, st, j, after, curly, square, r)
  {
    if r.Rest? {
      PlainPass(raw, trail, j, after);
    }
  }

  // A value and the white space after it.
  lemma {:induction false} ReadsTrailed(raw: string, value: nat, it: Item, st: ScanState,
                                        curly: nat, square: nat, phase: Phase, role: Role)
      returns (after: ScanState)
    requires LegalItem(it) && At(raw, value, Print(it.value))
    requires var trail := value + |Print(it.value)|;
             At(raw, trail, it.trail) && Separator(raw, trail + |it.trail|)
    requires curly >= 1 && StandsBefore(st, value, curly, square, phase, role)
    ensures Follows(raw, value, st, value + |Print(it.value)| + |it.trail|, after, curly, square,
                    Read(it.value, value, curly, square, phase, role))
    decreases it, 0
  {
    hide ScanFrom, Decoded, Follows, StandsBefore, Read, Print;
    var trail := value + |Print(it.value)|;
    NoColonAfter(raw, trail, it.trail);
    after := ReadsValue(raw, value, it.value, st, curly, square, phase, role);
    SpacesAreBlank(raw, trail, it.trail);
    ThenBlanks(raw, value, st, trail, trail + |it.trail|, after, curly, square,
               Read(it.value, value, curly, square, phase, role));
  }

  lemma {:induction false} ReadsItem(raw: string, i: nat, it: Item, st: ScanState,
                                     curly: nat, square: nat, phase: Phase)
      returns (after: ScanState)
    requires LegalItem(it) && At(raw, i, PrintItem(it)) && Separator(raw, i + |PrintItem(it)|)
    requires curly >= 1 && Stands(st, i, curly, square, phase)
    ensures Follows(raw, i, st, i + |PrintItem(it)|, after, curly, square,
                    Read(it.value, i + |it.lead|, curly, square, phase, Ordinary))
    decreases it, 1
  {
    hide ScanFrom, Decoded, Read, Print;
    ItemParts(raw, i, it);
    SpacesAreBlank(raw, i, it.lead);
    BlanksPass(raw, i, i + |it.lead|, st);
    after := ReadsTrailed(raw, i + |it.lead|, it, st, curly, square, phase, Ordinary);
  }

  // The first of several comma-separated texts, and the rest.
  lemma ListParts(raw: string, i: nat, first: string, rest: string)
    requires At(raw, i, first + ("," + rest))
    ensures At(raw, i, first) && At(raw, i + |first| + 1, rest)
    ensures i + |first| < |raw| && raw[i + |first|] == ','
  {
    AtSplit(raw, i, first, "," + rest);
    AtSplit(raw, i + |first|, ",", rest);
    AtChar(raw, i + |first|, ",", 0);
  }

  // Two parts in a row, with a comma between them.
  lemma ThenNext(raw: string, i: nat, st: ScanState, mid: ScanState, next: nat, j: nat, after: ScanState,
                 curly: nat, square: nat, phase: Phase, rest: Reading)
    requires Follows(raw, i, st, next, mid, curly, square, Rest(phase))
    requires Follows(raw, next, mid, j, after, curly, square, rest)
    ensures Follows(raw, i, st, j, after, curly, square, rest)
  {
  }

  lemma {:induction false} ReadsItems(raw: string, i: nat, items: seq<Item>, st: ScanState,
                                      curly: nat, square: nat, phase: Phase)
      returns (after: ScanState)
    requires items != [] && (forall k :: 0 <= k < |items| ==> LegalItem(items[k]))
    requires At(raw, i, PrintItems(items)) && curly >= 1 && Stands(st, i, curly, square, phase)
    requires i + |PrintItems(items)| < |raw| && raw[i + |PrintItems(items)|] == ']'
    ensures Follows(raw, i, st, i + |PrintItems(items)|, after, curly, square,
                    ReadItems(items, i, curly, square, phase))
    decreases items, 0
  {
    hide ScanFrom, Decoded, PrintItem, Read, LegalItem;
    var first := PrintItem(items[0]);
    if |items| == 1 {
      ConcatEmpty(first);
      after := ReadsItem(raw, i, items[0], st, curly, square, phase);
    } else {
      var next := i + |first|;
      ListParts(raw, i, first, PrintItems(items[1..]));
      after := ReadsItem(raw, i, items[0], st, curly, square, phase);
      var r := Read(items[0].value, i + |items[0].lead|, curly, square, phase, Ordinary);
      if r.Rest? {
        ThenBlanks(raw, i, st, next, next + 1, after, curly, square, r);
        var mid := after;
        after := ReadsItems(raw, next + 1, items[1..], mid, curly, square, r.phase);
        ThenNext(raw, i, st, mid, next + 1, i + |PrintItems(items)|, after, curly, square, r.phase,
                 ReadItems(items[1..], next + 1, curly, square, r.phase));
      }
    }
  }

  // What a key makes of its value.
  lemma KeyGivesRole(st: ScanState, p: nat, m: Member, value: nat, curly: nat, square: nat, phase: Phase)
    requires Stands(st, p, curly, square, phase) && p <= value && AllLegal(m.key)
    ensures var r := KeyResult(st, Decoded(m.key), value);
            if IsContentKey(m, curly, square, phase) then r == Stop(Found(value, true))
            else r.Next? && StandsBefore(r.state, value, curly, square, phase, RoleOf(m, curly, square, phase))
  {
    hide Decoded;
  }

  lemma {:induction false} ReadsMember(raw: string, p: nat, m: Member, st: ScanState,
                                       curly: nat, square: nat, phase: Phase)
      returns (after: ScanState)
    requires LegalMember(m) && At(raw, p, PrintMember(m)) && Separator(raw, p + |PrintMember(m)|)
    requires curly >= 1 && Stands(st, p, curly, square, phase)
    ensures Follows(raw, p, st, p + |PrintMember(m)|, after, curly, square,
                    ReadMember(m, p, curly, square, phase))
    decreases m, 0
  {
    hide ScanFrom, Decoded, Read, Print, KeyResult, StandsBefore, RoleOf, IsContentKey, Quoted;
    MemberParts(raw, p, m);
    WalkKey(raw, p, m, st);
    var value := ValuePos(p, m);
    KeyGivesRole(st, p, m, value, curly, square, phase);
    after := st;
    if !IsContentKey(m, curly, square, phase) {
      var inner := KeyResult(st, Decoded(m.key), value).state;
      after := ReadsTrailed(raw, value, m.item, inner, curly, square, phase, RoleOf(m, curly, square, phase));
    }
  }

  lemma {:induction false} ReadsMembers(raw: string, p: nat, members: seq<Member>, st: ScanState,
                                        curly: nat, square: nat, phase: Phase)
      returns (after: ScanState)
    requires members != [] && (forall k :: 0 <= k < |members| ==> LegalMember(members[k]))
    requires At(raw, p, PrintMembers(members)) && curly >= 1 && Stands(st, p, curly, square, phase)
    requires p + |PrintMembers(members)| < |raw| && raw[p + |PrintMembers(members)|] == '}'
    ensures Follows(raw, p, st, p + |PrintMembers(members)|, after, curly, square,
                    ReadMembers(members, p, curly, square, phase))
    decreases members, 0
  {
    hide ScanFrom, Decoded, PrintMember, ReadMember, LegalMember;
    var first := PrintMember(members[0]);
    var r := ReadMember(members[0], p, curly, square, phase);
    if |members| == 1 {
      ConcatEmpty(first);
      after := ReadsMember(raw, p, members[0], st, curly, square, phase);
    } else {
      var next := p + |first|;
      ListParts(raw, p, first, PrintMembers(members[1..]));
      after := ReadsMember(raw, p, members[0], st, curly, square, phase);
      if r.Rest? {
        ThenBlanks(raw, p, st, next, next + 1, after, curly, square, r);
        var mid := after;
        after := ReadsMembers(raw, next + 1, members[1..], mid, curly, square, r.phase);
        ThenNext(raw, p, st, mid, next + 1, p + |PrintMembers(members)|, after, curly, square, r.phase,
                 ReadMembers(members[1..], next + 1, curly, square, r.phase));
      }
    }
  }

  // The scanner on a printed document does what the reading of its tree says: it stops at the
  // content where the grammar puts it, or closes the object at the end of its text.
  lemma ScannerReadsDocument(raw: string, i: nat, doc: Value)
    requires doc.Obj? && Legal(doc) && At(raw, i, Print(doc))
    ensures i < |raw| && raw[i] == '{'
    ensures var r := ReadDocument(doc, i);
            if r.Hit?
            then ScanFrom(raw, i, INITIAL) == Found(r.pos, true) && At(raw, r.pos, Print(r.value)) && Legal(r.value)
            else ScanFrom(raw, i, INITIAL) == Closed(i + |Print(doc)|, r.phase.Message?)
  {
    var inner := if doc.members == [] then doc.gap else PrintMembers(doc.members);
    BracketParts(raw, i, "{", inner, "}");
    var st := OpenCurly(i, INITIAL);
    var last := ReadsObject(raw, i + 1, doc.gap, doc.members, st, 1, 0, Start);
    assert Step(raw, i, INITIAL) == Next(st);
  }
}
