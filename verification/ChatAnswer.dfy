/** The promise of the extractor, end to end: a response that carries a well-formed chat document
    is streamed as the document's words, however the response is cut. */
module ChatAnswer {
  import opened Seqs
  import opened JsonSpelling
  import opened JsonString
  import opened StreamScan
  import opened StreamPrefix
  import opened Utf8
  import opened ContentStream
  import opened ChatDocument
  import opened DocumentEnd
  import opened DocumentReading
  import opened DocumentScan

  lemma DocumentEnds(raw: string, i: nat, doc: Value)
    requires doc.Obj? && Legal(doc) && At(raw, i, Print(doc))
    ensures JsonEnd(raw, i) == (i + |Print(doc)|, true)
  {
    PrintedValueEnds(raw, i, doc);
  }

  // ----- The scanner and the grammar ------------------------------------------------------------

  // The scanner finds the content of a printed document exactly where the grammar puts it.
  lemma ScannerFindsContent(raw: string, i: nat, doc: Value)
    requires Legal(doc) && HasContent(doc) && At(raw, i, Print(doc))
    ensures i < |raw| && raw[i] == '{'
    ensures ReadDocument(doc, i).Hit? && ScanFrom(raw, i, INITIAL) == Found(ReadDocument(doc, i).pos, true)
    ensures At(raw, ReadDocument(doc, i).pos, Print(ContentOf(doc)))
  {
    hide ScanFrom, Print, ReadDocument;
    ScannerReadsDocument(raw, i, doc);
    ContentIsRead(doc, i);
  }

  // A printed document shows the chat shape to the scanner if and only if it has it by the grammar;
  // one that has not is passed to its end.
  lemma ScannerSeesShape(raw: string, i: nat, doc: Value)
    requires doc.Obj? && Legal(doc) && At(raw, i, Print(doc))
    ensures i < |raw| && raw[i] == '{' && !ScanFrom(raw, i, INITIAL).Broken?
    ensures ScanFrom(raw, i, INITIAL).shape <==> ShowsShape(doc)
    ensures !ShowsShape(doc) ==> ScanFrom(raw, i, INITIAL) == Closed(i + |Print(doc)|, false)
  {
    hide ScanFrom, Print, ReadDocument, ShowsShape;
    ScannerReadsDocument(raw, i, doc);
    ShapeExactly(doc, i);
  }

  // ----- What may come before the document ---------------------------------------------------

  // Text before the answer: prose without an opening brace, or another document.
  datatype Part = Prose(text: string) | Other(doc: Value)

  function PartText(part: Part): string {
    match part
    case Prose(text) => text
    case Other(doc) => Print(doc)
  }

  function PartsText(parts: seq<Part>): string {
    if parts == [] then "" else PartText(parts[0]) + PartsText(parts[1..])
  }

  predicate Passable(part: Part) {
    match part
    case Prose(text) => '{' !in text
    case Other(doc) => doc.Obj? && Legal(doc) && !ShowsShape(doc)
  }

  lemma {:induction false} IndexOfSkips(raw: string, i: nat, j: nat)
    requires i <= j <= |raw| && (forall x :: i <= x < j ==> raw[x] != '{')
    ensures FirstIndex(raw, '{', i) == FirstIndex(raw, '{', j)
    decreases j - i
  {
    if i < j {
      IndexOfSkips(raw, i + 1, j);
    }
  }

  lemma ProseHasNoBrace(raw: string, i: nat, text: string)
    requires At(raw, i, text) && '{' !in text
    ensures forall x :: i <= x < i + |text| ==> raw[x] != '{'
  {
    forall x | i <= x < i + |text| ensures raw[x] != '{' {
      AtChar(raw, i, text, x - i);
    }
  }

  // The search passes over all of it and comes to the brace that follows.
  lemma LeadsHere(raw: string, start: nat)
    requires start < |raw| && raw[start] == '{'
    ensures LeadsTo(raw, start, start)
  {
  }

  lemma {:induction false} PartsLeadToAnswer(raw: string, i: nat, parts: seq<Part>, start: nat)
    requires forall k :: 0 <= k < |parts| ==> Passable(parts[k])
    requires At(raw, i, PartsText(parts)) && start == i + |PartsText(parts)| < |raw| && raw[start] == '{'
    ensures LeadsTo(raw, i, start)
    decreases |parts|
  {
    hide LeadsTo, PartText, Passable, FirstIndex;
    if parts == [] {
      LeadsHere(raw, start);
    } else {
      var text := PartText(parts[0]);
      AtSplit(raw, i, text, PartsText(parts[1..]));
      PartsLeadToAnswer(raw, i + |text|, parts[1..], start);
      PartIsPassed(raw, i, parts[0], start);
    }
  }

  lemma PartIsPassed(raw: string, i: nat, part: Part, start: nat)
    requires Passable(part) && At(raw, i, PartText(part)) && i + |PartText(part)| <= start
    requires LeadsTo(raw, i + |PartText(part)|, start)
    ensures LeadsTo(raw, i, start)
  {
    match part
    case Prose(text) =>
      ProseHasNoBrace(raw, i, text);
      IndexOfSkips(raw, i, i + |text|);
    case Other(doc) =>
      OtherIsPassed(raw, i, doc, start);
  }

  lemma OtherIsPassed(raw: string, i: nat, doc: Value, start: nat)
    requires doc.Obj? && Legal(doc) && !ShowsShape(doc) && At(raw, i, Print(doc))
    requires i + |Print(doc)| <= start && LeadsTo(raw, i + |Print(doc)|, start)
    ensures LeadsTo(raw, i, start)
  {
    hide ShowsShape, Print, ScanFrom;
    ScannerSeesShape(raw, i, doc);
    DocumentEnds(raw, i, doc);
    assert FirstIndex(raw, '{', i) == i;
  }

  // ----- The promise --------------------------------------------------------------------------

  lemma TextAt(before: string, t: string, after: string)
    ensures At(before + t + after, |before|, t) && At(before + t + after, 0, before)
  {
  }

  // What the scanner finds at the content of a printed document.
  lemma ContentIsWords(raw: string, value: nat, units: seq<Unit>)
    requires AllLegal(units) && At(raw, value, Quoted(units))
    ensures LegalStringAt(raw, value) && StringAt(raw, value) == Decoded(units)
  {
    hide Unquote, Decoded, CloseQuote;
    QuotedParts(raw, value, units);
    BodyInQuotes(raw, value + 1, units);
  }

  lemma OtherIsNoString(raw: string, value: nat, v: Value)
    requires Legal(v) && !v.Str? && At(raw, value, Print(v))
    ensures value < |raw| && raw[value] != '"'
  {
    PrintOpens(v);
    AtChar(raw, value, Print(v), 0);
  }

  // A document that shows the chat shape: its answer begins at some point of the response.
  predicate IsChat(doc: Value) {
    doc.Obj? && Legal(doc) && ShowsShape(doc)
  }

  // What a document printed at i says: the string its reading stops at, if it is one.
  function Said(doc: Value, i: nat): string {
    var r := ReadDocument(doc, i);
    if r.Hit? && r.value.Str? && AllLegal(r.value.units) then Decoded(r.value.units) else ""
  }

  lemma AnswerSaysWords(doc: Value, i: nat)
    requires IsAnswer(doc)
    ensures IsChat(doc) && Said(doc, i) == Words(doc)
  {
    hide ReadDocument, ShowsShape, Decoded;
    ContentIsRead(doc, i);
    ShapeExactly(doc, i);
  }

  lemma ValueIsContent(raw: string, pos: nat, v: Value)
    requires Legal(v) && At(raw, pos, Print(v))
    ensures InReachAt(raw, pos)
    ensures ContentAt(raw, pos) == if v.Str? && AllLegal(v.units) then Decoded(v.units) else ""
  {
    hide InReach, DecodePrefix, Decoded, CloseQuote;
    if v.Str? {
      ContentIsWords(raw, pos, v.units);
      LegalStringIsInReach(raw, pos);
    } else {
      OtherIsNoString(raw, pos, v);
    }
  }

  // A document printed where the search arrives is an answer in the extractor's terms.
  lemma PrintedDocumentAnswers(raw: string, start: nat, doc: Value)
    requires IsChat(doc) && At(raw, start, Print(doc)) && LeadsTo(raw, 0, start)
    ensures Answers(raw, start) && Content(raw, start) == Said(doc, start)
    ensures JsonEnd(raw, start) == (start + |Print(doc)|, true)
  {
    hide ScanFrom, Decoded, LegalStringAt, StringAt, JsonEnd, LeadsTo, InReachAt, ContentAt, ReadDocument, ShowsShape;
    ScannerReadsDocument(raw, start, doc);
    ScannerSeesShape(raw, start, doc);
    DocumentEnds(raw, start, doc);
    var r := ReadDocument(doc, start);
    if r.Hit? {
      ValueIsContent(raw, r.pos, r.value);
    }
  }

  lemma ChatOpens(raw: string, i: nat, doc: Value)
    requires IsChat(doc) && At(raw, i, Print(doc))
    ensures i < |raw| && raw[i] == '{'
  {
    ScannerSeesShape(raw, i, doc);
  }

  // The response is an answer in the extractor's terms, with the grammar's content and end.
  lemma DocumentAnswers(parts: seq<Part>, doc: Value, after: string)
    requires IsChat(doc) && (forall k :: 0 <= k < |parts| ==> Passable(parts[k]))
    ensures var raw, start := PartsText(parts) + Print(doc) + after, |PartsText(parts)|;
            && Answers(raw, start) && Content(raw, start) == Said(doc, start)
            && JsonEnd(raw, start) == (start + |Print(doc)|, true)
            && start + |Print(doc)| <= |raw| && raw[start..start + |Print(doc)|] == Print(doc)
  {
    hide IsChat, Answers, Content, JsonEnd, Print, PartsText, Passable, Said, LeadsTo;
    var before := PartsText(parts);
    var raw, start := before + Print(doc) + after, |before|;
    TextAt(before, Print(doc), after);
    ChatOpens(raw, start, doc);
    PartsLeadToAnswer(raw, 0, parts, start);
    PrintedDocumentAnswers(raw, start, doc);
    AtSlice(raw, start, Print(doc));
  }

  // However the response is cut into chunks, the published pieces join to what the first document
  // of chat shape says, and the final parser is given exactly that document.
  lemma StreamIsExact(parts: seq<Part>, doc: Value, after: string, chunks: seq<string>)
    requires IsChat(doc) && (forall k :: 0 <= k < |parts| ==> Passable(parts[k]))
    requires Concat(chunks) == PartsText(parts) + Print(doc) + after
    ensures var (e, published) := FedAll(FRESH, chunks);
            published == e.text == Said(doc, |PartsText(parts)|) && FinalText(e) == Print(doc)
  {
    DocumentAnswers(parts, doc, after);
    ChunkingDoesNotMatter(PartsText(parts) + Print(doc) + after, |PartsText(parts)|, chunks);
  }

  // A document whose first choice answers with a string: the stream is exactly its words.
  lemma StreamedWordsAreExact(parts: seq<Part>, doc: Value, after: string, chunks: seq<string>)
    requires IsAnswer(doc) && (forall k :: 0 <= k < |parts| ==> Passable(parts[k]))
    requires Concat(chunks) == PartsText(parts) + Print(doc) + after
    ensures var (e, published) := FedAll(FRESH, chunks);
            published == e.text == Words(doc) && FinalText(e) == Print(doc)
  {
    AnswerSaysWords(doc, |PartsText(parts)|);
    StreamIsExact(parts, doc, after, chunks);
  }

  // The stream is the text itself, whichever way the response writes it: with letters, with code
  // points in either case, with surrogate pairs.
  lemma StreamedTextIsWhatWasWritten(parts: seq<Part>, doc: Value, after: string, chunks: seq<string>,
                                     text: string, ways: seq<Way>)
    requires IsAnswer(doc) && (forall k :: 0 <= k < |parts| ==> Passable(parts[k]))
    requires Spells(text, ways) && Body(ContentOf(doc).units) == Written(text, ways)
    requires Concat(chunks) == PartsText(parts) + Print(doc) + after
    ensures var (e, published) := FedAll(FRESH, chunks);
            published == e.text == text && FinalText(e) == Print(doc)
  {
    hide FedAll, FinalText, Written, Spells, Print, PartsText, Passable;
    WrittenIsRead(text, ways);
    UnquoteBody(ContentOf(doc).units);
    StreamedWordsAreExact(parts, doc, after, chunks);
  }

  // A document whose content is null, or any other value but a string, or that has no member of
  // that name: nothing is published, and the final parser is given exactly the document.
  lemma WordlessDocumentIsSilent(parts: seq<Part>, doc: Value, after: string, chunks: seq<string>)
    requires IsChat(doc) && (forall k :: 0 <= k < |parts| ==> Passable(parts[k]))
    requires (HasContent(doc) && !ContentOf(doc).Str?) || !Mentions(doc, "content")
    requires Concat(chunks) == PartsText(parts) + Print(doc) + after
    ensures var (e, published) := FedAll(FRESH, chunks);
            published == "" && FinalText(e) == Print(doc)
  {
    var start := |PartsText(parts)|;
    if HasContent(doc) && !ContentOf(doc).Str? {
      ContentIsRead(doc, start);
    } else {
      NoContentNoHit(doc, start, 0, 0, Start, Ordinary);
    }
    StreamIsExact(parts, doc, after, chunks);
  }

  lemma StreamedWordsAreNeverWrong(parts: seq<Part>, doc: Value, after: string, chunks: seq<string>)
    requires IsChat(doc) && (forall k :: 0 <= k < |parts| ==> Passable(parts[k]))
    requires Concat(chunks) <= PartsText(parts) + Print(doc) + after
    ensures FedAll(FRESH, chunks).1 <= Said(doc, |PartsText(parts)|)
  {
    DocumentAnswers(parts, doc, after);
    PublishedIsNeverWrong(PartsText(parts) + Print(doc) + after, |PartsText(parts)|, chunks);
  }
  // ----- Contents that are no legal string ------------------------------------------------------

  lemma PrintedQuote(raw: string, pos: nat, v: Value)
    requires v.Str? && At(raw, pos, Print(v))
    ensures pos < |raw| && raw[pos] == '"'
  {
    QuotedParts(raw, pos, v.units);
  }

  lemma ContentQuoteInside(before: string, doc: Value)
    requires IsAnswer(doc)
    ensures var raw, r := before + Print(doc), ReadDocument(doc, |before|);
            && r.Hit? && |before| < r.pos < |raw| && raw[r.pos] == '"'
            && ScanFrom(raw, |before|, INITIAL) == Found(r.pos, true)
    ensures At(before + Print(doc), 0, before)
  {
    hide ScanFrom, ReadDocument, Print;
    var raw := before + Print(doc);
    TextAt(before, Print(doc), "");
    ConcatEmpty(raw);
    ScannerFindsContent(raw, |before|, doc);
    OutcomeLiesAhead(raw, |before|, INITIAL);
    PrintedQuote(raw, ReadDocument(doc, |before|).pos, ContentOf(doc));
  }

  function ContentQuote(before: string, doc: Value): (pos: nat)
    requires IsAnswer(doc)
    ensures |before| < pos < |before + Print(doc)|
  {
    ContentQuoteInside(before, doc);
    ReadDocument(doc, |before|).pos
  }

  // The response up to the opening quote of the document's content.
  function UpToContent(parts: seq<Part>, doc: Value): string
    requires IsAnswer(doc)
  {
    var before := PartsText(parts);
    var pos := ContentQuote(before, doc);
    (before + Print(doc))[..pos + 1]
  }

  // The closing quote is found the same behind any text.
  lemma {:induction false} CloseQuoteBehind(head: string, t: string, i: nat, escaped: bool)
    requires i <= |t|
    ensures CloseQuote(head + t, |head| + i, escaped) == |head| + CloseQuote(t, i, escaped)
    decreases |t| - i
  {
    if i < |t| && (escaped || t[i] != '"') {
      CloseQuoteBehind(head, t, i + 1, !escaped && t[i] == '\\');
    }
  }

  lemma PlacedBody(head: string, body: string, after: string)
    requires head != [] && Last(head) == '"'
    requires CloseQuote(body + (['"'] + after), 0, false) == |body|
    ensures var raw := head + (body + (['"'] + after));
            && ContentAt(raw, |head| - 1) == DecodePrefix(body, true)
            && (InReachAt(raw, |head| - 1) <==> InReach(body, true))
  {
    hide DecodePrefix, InReach, CloseQuote;
    var rest := body + (['"'] + after);
    CloseQuoteBehind(head, rest, 0, false);
    CutOfConcat(head, rest);
    CutOfConcat(body, ['"'] + after);
    assert (head + rest)[|head|..|head| + |body|] == body;
  }

  lemma AtInHead(raw: string, other: string, cut: nat, t: string)
    requires cut <= |raw| && cut <= |other| && raw[..cut] == other[..cut] && |t| < cut && At(raw, 0, t)
    ensures At(other, 0, t) && other[|t|] == raw[|t|] && other[cut - 1] == raw[cut - 1]
  {
    assert forall k :: 0 <= k < cut ==> raw[..cut][k] == other[..cut][k];
  }

  // Behind the same beginning the scanner finds the content at the same place.
  lemma SamePlace(printed: string, raw: string, start: nat, doc: Value, cut: nat)
    requires Legal(doc) && HasContent(doc) && At(printed, start, Print(doc))
    requires ReadDocument(doc, start).Hit? && cut == ReadDocument(doc, start).pos + 1
    requires cut <= |printed| && cut <= |raw| && raw[..cut] == printed[..cut]
    ensures start < |raw| && ScanFrom(raw, start, INITIAL) == Found(cut - 1, true)
  {
    hide ScanFrom, Print, ReadDocument, Legal, HasContent, At;
    ScannerFindsContent(printed, start, doc);
    OutcomeLiesAhead(printed, start, INITIAL);
    FoundStays(printed, raw, cut, start, INITIAL);
  }

  lemma HeadIsCut(parts: seq<Part>, doc: Value, t: string)
    requires IsAnswer(doc)
    ensures var before := PartsText(parts); var pos := ContentQuote(before, doc);
            var head := UpToContent(parts, doc);
            |head| == pos + 1 && (head + t)[..pos + 1] == (before + Print(doc))[..pos + 1]
  {
    hide IsAnswer, Print, ContentQuote;
    CutOfConcat(UpToContent(parts, doc), t);
  }

  lemma AnswerOpens(raw: string, i: nat, doc: Value)
    requires IsAnswer(doc) && At(raw, i, Print(doc))
    ensures i < |raw| && raw[i] == '{'
  {
    ScannerReadsDocument(raw, i, doc);
  }

  // Behind the same beginning stands a chat object.
  lemma SameObject(printed: string, raw: string, parts: seq<Part>, doc: Value, cut: nat)
    requires IsAnswer(doc) && (forall k :: 0 <= k < |parts| ==> Passable(parts[k]))
    requires At(printed, 0, PartsText(parts)) && At(printed, |PartsText(parts)|, Print(doc))
    requires ReadDocument(doc, |PartsText(parts)|).Hit? && cut == ReadDocument(doc, |PartsText(parts)|).pos + 1
    requires cut <= |printed| && cut <= |raw| && raw[..cut] == printed[..cut] && |PartsText(parts)| < cut
    ensures ChatObject(raw, |PartsText(parts)|)
    ensures ScanFrom(raw, |PartsText(parts)|, INITIAL) == Found(cut - 1, true)
  {
    hide ScanFrom, Print, ReadDocument, Legal, HasContent, Passable, PartsText, LeadsTo;
    var start := |PartsText(parts)|;
    SamePlace(printed, raw, start, doc, cut);
    AtInHead(printed, raw, cut, PartsText(parts));
    AnswerOpens(printed, start, doc);
    PartsLeadToAnswer(raw, 0, parts, start);
  }

  lemma BodyIsPlaced(parts: seq<Part>, doc: Value, body: string, after: string)
    requires IsAnswer(doc) && (forall k :: 0 <= k < |parts| ==> Passable(parts[k]))
    requires CloseQuote(body + (['"'] + after), 0, false) == |body|
    ensures var raw, start := UpToContent(parts, doc) + (body + (['"'] + after)), |PartsText(parts)|;
            && ChatObject(raw, start) && Content(raw, start) == DecodePrefix(body, true)
            && (Answers(raw, start) <==> InReach(body, true))
  {
    hide IsAnswer, Passable, PartsText, DecodePrefix, InReach, InReachAt, ScanFrom, ContentAt, CloseQuote, LeadsTo;
    hide Print, ReadDocument;
    var before := PartsText(parts);
    var head := UpToContent(parts, doc);
    var raw := head + (body + (['"'] + after));
    ContentQuoteInside(before, doc);
    TextAt(before, Print(doc), "");
    ConcatEmpty(before + Print(doc));
    HeadIsCut(parts, doc, body + (['"'] + after));
    SameObject(before + Print(doc), raw, parts, doc, |head|);
    PlacedBody(head, body, after);
  }

  // Put any text in the place of the content's body: the cutting does not matter if and only if
  // that body is in reach. Read at once, the response publishes what is read of the body.
  lemma AnyBodyInPlace(parts: seq<Part>, doc: Value, body: string, after: string)
    requires IsAnswer(doc) && (forall k :: 0 <= k < |parts| ==> Passable(parts[k]))
    requires CloseQuote(body + (['"'] + after), 0, false) == |body|
    ensures var raw := UpToContent(parts, doc) + (body + (['"'] + after));
            && FedAll(FRESH, [raw]).1 == DecodePrefix(body, true)
            && ((forall chunks: seq<string> | Concat(chunks) == raw ::
                   FedAll(FRESH, chunks).1 == DecodePrefix(body, true))
                <==> InReach(body, true))
  {
    hide IsAnswer, Passable, Print, PartsText, DecodePrefix, InReach, ScanFrom, FedAll, Content, Answers, ChatObject;
    var before := PartsText(parts);
    var raw := UpToContent(parts, doc) + (body + (['"'] + after));
    BodyIsPlaced(parts, doc, body, after);
    ChunksMatterExactlyOutOfReach(raw, |before|);
  }

  // With a backslash that opens no escape behind some units the cutting does not matter if and only
  // if at most fifteen bytes follow it.
  lemma BadEscapeInPlace(parts: seq<Part>, doc: Value, us: seq<Unit>, tail: string, after: string)
    requires IsAnswer(doc) && (forall k :: 0 <= k < |parts| ==> Passable(parts[k]))
    requires AllLegal(us) && us != [] && !HighUnit(Last(us)) && First(['\\'] + tail).None?
    requires var body := Body(us) + (['\\'] + tail); CloseQuote(body + (['"'] + after), 0, false) == |body|
    ensures var raw := UpToContent(parts, doc) + (Body(us) + (['\\'] + tail) + (['"'] + after));
            && FedAll(FRESH, [raw]).1 == (if Size(tail) <= 15 then Decoded(us) else "")
            && ((forall chunks: seq<string> | Concat(chunks) == raw ::
                   FedAll(FRESH, chunks).1 == FedAll(FRESH, [raw]).1)
                <==> Size(tail) <= 15)
  {
    hide IsAnswer, Passable, DecodePrefix, InReach, FedAll, Decoded, CloseQuote, Body, First, Size;
    BadEscapeOutOfReach(us, tail, true);
    AnyBodyInPlace(parts, doc, Body(us) + (['\\'] + tail), after);
  }

  // ----- One such response ------------------------------------------------------------------------

  // A text without quotes, backslashes and control characters, as units.
  function Plainly(s: string): seq<Unit> {
    if s == "" then [] else [Unit.Plain(s[0])] + Plainly(s[1..])
  }

  lemma {:induction false} PlainlyDecodes(s: string)
    requires forall k :: 0 <= k < |s| ==> LegalUnit(Unit.Plain(s[k]))
    ensures AllLegal(Plainly(s)) && Decoded(Plainly(s)) == s
    decreases |s|
  {
    if s != "" {
      PlainlyDecodes(s[1..]);
      HeadTail(s);
      TailOfConcat([Unit.Plain(s[0])], Plainly(s[1..]));
    }
  }

  function Single(name: string, v: Value): Value {
    Obj("", [Member("", Plainly(name), "", Item("", v, ""))])
  }

  lemma SingleHas(name: string, v: Value)
    requires forall k :: 0 <= k < |name| ==> LegalUnit(Unit.Plain(name[k]))
    ensures Has(Single(name, v), name) && Get(Single(name, v), name) == v
    ensures Legal(v) ==> Legal(Single(name, v))
  {
    hide Decoded, Plainly;
    PlainlyDecodes(name);
    var m := Member("", Plainly(name), "", Item("", v, ""));
    assert Single(name, v).members == [m] && Named(m, name);
    assert Legal(v) ==> LegalMember(m);
  }

  function OneChoice(message: Value): Value {
    Arr("", [Item("", Single("message", message), "")])
  }

  const SMALL_ANSWER := Single("choices", OneChoice(Single("content", Str([]))))

  lemma EmptyIsLegal()
    ensures Legal(Str([]))
  {
  }

  lemma OneChoiceIsLegal(message: Value)
    requires Legal(Single("message", message))
    ensures Legal(OneChoice(message))
  {
    hide Single;
    assert LegalItem(OneChoice(message).items[0]);
  }

  lemma SmallAnswerIsAnswer()
    ensures IsAnswer(SMALL_ANSWER)
  {
    hide Single, Find, Named, Legal;
    var message := Single("content", Str([]));
    EmptyIsLegal();
    SingleHas("content", Str([]));
    SingleHas("message", message);
    OneChoiceIsLegal(message);
    SingleHas("choices", OneChoice(message));
  }

  lemma {:induction false} NoQuoteYet(s: string, i: nat, j: nat)
    requires i <= j < |s| && s[j] == '"'
    requires forall k :: i <= k < j ==> s[k] != '"' && s[k] != '\\'
    ensures CloseQuote(s, i, false) == j
    decreases j - i
  {
    if i < j {
      NoQuoteYet(s, i + 1, j);
    }
  }

  lemma SpoiledBodyCloses(tail: string, after: string)
    requires tail != "" && tail[0] == 'x' && '"' !in tail && '\\' !in tail
    ensures var body := Body([Unit.Plain('a')]) + (['\\'] + tail);
            CloseQuote(body + (['"'] + after), 0, false) == |body|
  {
    BodyOne(Unit.Plain('a'));
    var s := Body([Unit.Plain('a')]) + (['\\'] + tail) + (['"'] + after);
    assert s[0] == 'a' && s[1] == '\\' && s[2] == 'x';
    NoQuoteYet(s, 3, 2 + |tail|);
    assert CloseQuote(s, 0, false) == CloseQuote(s, 1, false) == CloseQuote(s, 2, true) == CloseQuote(s, 3, false);
  }

  lemma OneOfOne(raw: string)
    ensures Concat([raw]) == raw
  {
    ConcatEmpty(raw);
  }

  lemma SpoiledAnswerDiffers(doc: Value, tail: string, after: string) returns (chunks: seq<string>, other: seq<string>)
    requires IsAnswer(doc) && '"' !in tail && '\\' !in tail && Ascii(tail) && |tail| > 15 && tail[0] == 'x'
    ensures Concat(chunks) == Concat(other) && FedAll(FRESH, chunks).1 != FedAll(FRESH, other).1
  {
    hide FedAll, IsAnswer, UpToContent, Body, CloseQuote, Encode;
    var us := [Unit.Plain('a')];
    var raw := UpToContent([], doc) + (Body(us) + (['\\'] + tail) + (['"'] + after));
    SpoiledBodyCloses(tail, after);
    AsciiSize(tail);
    BadEscapeInPlace([], doc, us, tail, after);
    OneOfOne(raw);
    chunks :| Concat(chunks) == raw && FedAll(FRESH, chunks).1 != FedAll(FRESH, [raw]).1;
    other := [raw];
  }

  const TAIL := "x has no meaning."

  lemma TailIsPlain()
    ensures Ascii(TAIL) && '"' !in TAIL && '\\' !in TAIL && |TAIL| > 15 && TAIL[0] == 'x'
  {
  }

  // The same response, cut in two ways, publishes two different texts.
  lemma CuttingsCanDiffer()
    ensures exists chunks: seq<string>, other: seq<string> ::
              Concat(chunks) == Concat(other) && FedAll(FRESH, chunks).1 != FedAll(FRESH, other).1
  {
    hide *;
    SmallAnswerIsAnswer();
    TailIsPlain();
    var chunks, other := SpoiledAnswerDiffers(SMALL_ANSWER, TAIL, "}}]}");
  }
}
