/** Inline images in request text: each `data:image/` URL is replaced by a marker, searching the
    whole text again after every replacement. */
module Redaction {
  import opened Options
  import opened Seqs

  const PREFIX := "data:image/"

  function Marker(): string {
    "[image " + ("binary " + ("omitted; " + ("image is " + ("attached " + "separately]"))))
  }

  predicate Base64(c: char) {
    'a' <= c <= 'z' || 'A' <= c <= 'Z' || '0' <= c <= '9' || c == '+' || c == '/' || c == '=' || c == '-' || c == '_'
  }

  predicate PrefixAt(s: string, i: nat) {
    i + |PREFIX| <= |s| && s[i..i + |PREFIX|] == PREFIX
  }

  // The first place at or after `from` where the prefix stands; the length of the text if nowhere.
  function Find(s: string, from: nat): (i: nat)
    requires from <= |s|
    ensures from <= i <= |s| && (i < |s| ==> PrefixAt(s, i))
    ensures forall k :: from <= k < i ==> !PrefixAt(s, k)
    decreases |s| - from
  {
    if from == |s| || PrefixAt(s, from) then from else Find(s, from + 1)
  }

  function DataEnd(s: string, from: nat): (i: nat)
    requires from <= |s|
    ensures from <= i <= |s| && (i < |s| ==> !Base64(s[i]))
    ensures forall k :: from <= k < i ==> Base64(s[k])
    decreases |s| - from
  {
    if from < |s| && Base64(s[from]) then DataEnd(s, from + 1) else from
  }

  // ----- The single pass --------------------------------------------------------------------------------

  // Where the first image URL begins and ends, if there is one.
  function FirstImage(s: string): Option<(nat, nat)> {
    var start := Find(s, 0);
    if start == |s| then None
    else
      var comma := FirstIndex(s, ',', start);
      if comma == |s| then None else Some((start, DataEnd(s, comma + 1)))
  }

  lemma ImageIsInside(s: string)
    requires FirstImage(s).Some?
    ensures var (start, end) := FirstImage(s).value; start < end <= |s|
  {
  }

  function Redacted(s: string): string
    decreases |s|
  {
    match FirstImage(s)
    case None => s
    case Some((start, end)) =>
      ImageIsInside(s);
      s[..start] + (Marker() + Redacted(s[end..]))
  }

  // ----- The loop ------------------------------------------------------------------------------------------

  lemma MarkerLetters()
    ensures ':' !in Marker() && Marker()[0] == '[' && Last(Marker()) == ']' && |Marker()| == 52
  {
    assert Marker()[0] == "[image "[0];
    assert Last(Marker()) == "separately]"[10];
  }

  lemma PrefixLetters(k: nat)
    requires k < |PREFIX|
    ensures PREFIX[k] != '[' && PREFIX[k] != ']' && PREFIX[4] == ':'
  {
  }

  // No prefix runs over a bracket, and every prefix has its colon.
  lemma PrefixSpans(s: string, i: nat, j: nat)
    requires i <= j < i + |PREFIX| && j < |s| && PrefixAt(s, i)
    ensures s[j] != '[' && s[j] != ']' && s[i + 4] == ':'
  {
    PrefixLetters(j - i);
    assert s[i..i + |PREFIX|][j - i] == s[j] && s[i..i + |PREFIX|][4] == s[i + 4];
  }

  lemma PrefixInPart(a: string, b: string, i: nat)
    ensures i + |PREFIX| <= |a| ==> (PrefixAt(a + b, i) <==> PrefixAt(a, i))
    ensures i >= |a| ==> (PrefixAt(a + b, i) <==> PrefixAt(b, i - |a|))
  {
    var s := a + b;
    if i + |PREFIX| <= |a| {
      assert s[i..i + |PREFIX|] == a[i..i + |PREFIX|];
    } else if i >= |a| && i + |PREFIX| <= |s| {
      assert s[i..i + |PREFIX|] == b[i - |a|..i - |a| + |PREFIX|];
    }
  }

  lemma NoPrefixInMarker(k: nat)
    ensures !PrefixAt(Marker(), k)
  {
    MarkerLetters();
    if k + |PREFIX| <= |Marker()| {
      assert Marker()[k + 4] in Marker();
      assert Marker()[k..k + |PREFIX|][4] == Marker()[k + 4];
    }
  }

  // Text that is done with: it is empty or ends with a marker, and holds no prefix.
  ghost predicate Settled(done: string) {
    && (done != "" ==> Last(done) == ']')
    && (forall i :: 0 <= i < |done| ==> !PrefixAt(done, i))
  }

  // A prefix in `done + rest` lies wholly in `rest`.
  lemma NoPrefixAcross(done: string, rest: string, i: nat)
    requires Settled(done) && i < |done|
    ensures !PrefixAt(done + rest, i)
  {
    PrefixInPart(done, rest, i);
    if i + |PREFIX| > |done| && PrefixAt(done + rest, i) {
      PrefixSpans(done + rest, i, |done| - 1);
    }
  }

  lemma FindAfter(done: string, rest: string)
    requires Settled(done)
    ensures Find(done + rest, 0) == |done| + Find(rest, 0)
  {
    var s, i := done + rest, Find(rest, 0);
    forall k | 0 <= k < |done| + i ensures !PrefixAt(s, k) {
      if k < |done| {
        NoPrefixAcross(done, rest, k);
      } else {
        PrefixInPart(done, rest, k);
      }
    }
    PrefixInPart(done, rest, |done| + i);
    FindIs(s, 0, |done| + i);
  }

  lemma FindIs(s: string, from: nat, i: nat)
    requires from <= i <= |s| && (i < |s| ==> PrefixAt(s, i))
    requires forall k :: from <= k < i ==> !PrefixAt(s, k)
    ensures Find(s, from) == i
  {
  }

  lemma {:induction false} DataAfter(done: string, rest: string, from: nat)
    requires from <= |rest|
    ensures DataEnd(done + rest, |done| + from) == |done| + DataEnd(rest, from)
    decreases |rest| - from
  {
    if from < |rest| {
      assert (done + rest)[|done| + from] == rest[from];
      DataAfter(done, rest, from + 1);
    }
  }

  // The marker leaves nothing to find in what lies before it.
  lemma MarkerEndsText(text: string, i: nat)
    requires forall k :: 0 <= k < |text| ==> !PrefixAt(text, k)
    ensures !PrefixAt(text + Marker(), i)
  {
    PrefixInPart(text, Marker(), i);
    if i >= |text| {
      NoPrefixInMarker(i - |text|);
    } else if i + |PREFIX| > |text| && PrefixAt(text + Marker(), i) {
      MarkerLetters();
      PrefixSpans(text + Marker(), i, |text|);
    }
  }

  lemma SettledWithMarker(done: string, text: string)
    requires Settled(done) && forall i :: 0 <= i < |text| ==> !PrefixAt(text, i)
    ensures Settled(done + (text + Marker()))
  {
    var t := text + Marker();
    var s := done + t;
    MarkerLetters();
    hide Marker;
    forall i | 0 <= i < |s| ensures !PrefixAt(s, i) {
      if i < |done| {
        NoPrefixAcross(done, t, i);
      } else {
        MarkerEndsText(text, i - |done|);
        PrefixInPart(done, t, i);
      }
    }
    assert Last(s) == Last(Marker());
  }

  // What is left to do does not depend on what is done.
  lemma ImageAfter(done: string, rest: string)
    requires Settled(done)
    ensures FirstImage(done + rest).None? <==> FirstImage(rest).None?
    ensures FirstImage(rest).Some? ==>
              FirstImage(done + rest).Some?
              && FirstImage(done + rest).value.0 == |done| + FirstImage(rest).value.0
              && FirstImage(done + rest).value.1 == |done| + FirstImage(rest).value.1
  {
    var start := Find(rest, 0);
    FindAfter(done, rest);
    hide Settled, Find, FirstIndex, DataEnd;
    if start < |rest| {
      FirstIndexAfter(done, rest, ',', start);
      var comma := FirstIndex(rest, ',', start);
      if comma < |rest| {
        DataAfter(done, rest, comma + 1);
      }
    }
  }

  // Replacing a stretch of `rest` within `done + rest`.
  lemma ReplaceWithin(done: string, rest: string, start: nat, end: nat, m: string)
    requires start <= end <= |rest|
    ensures var s := done + rest;
            s[..|done| + start] + m + s[|done| + end..] == (done + (rest[..start] + m)) + rest[end..]
  {
    var s := done + rest;
    assert s[..|done| + start] == done + rest[..start];
    assert s[|done| + end..] == rest[end..];
    ConcatAssociates(done, rest[..start], m);
  }

  lemma MoveOver(done: string, before: string, m: string, after: string)
    ensures done + (before + (m + after)) == (done + (before + m)) + after
  {
    ConcatAssociates(before, m, after);
    ConcatAssociates(done, before + m, after);
  }

  lemma NothingBefore(rest: string, start: nat)
    requires start == Find(rest, 0)
    ensures forall i :: 0 <= i < start ==> !PrefixAt(rest[..start], i)
  {
    CutAt(rest, start);
    forall i | 0 <= i < start ensures !PrefixAt(rest[..start], i) {
      PrefixInPart(rest[..start], rest[start..], i);
    }
  }

  lemma FirstImageSettles(done: string, rest: string, start: nat, end: nat)
    requires Settled(done) && FirstImage(rest) == Some((start, end))
    ensures start < end <= |rest| && Settled(done + (rest[..start] + Marker()))
  {
    ImageIsInside(rest);
    NothingBefore(rest, start);
    hide Settled, PrefixAt, Marker, FirstImage;
    SettledWithMarker(done, rest[..start]);
  }

  lemma RedactedStep(done: string, rest: string, start: nat, end: nat)
    requires FirstImage(rest) == Some((start, end)) && start < end <= |rest|
    ensures done + Redacted(rest) == (done + (rest[..start] + Marker())) + Redacted(rest[end..])
  {
    var after := Redacted(rest[end..]);
    assert Redacted(rest) == rest[..start] + (Marker() + after);
    hide FirstImage, Marker, Redacted;
    MoveOver(done, rest[..start], Marker(), after);
  }

  // Replacing the first image of the whole text moves it from what is left to what is done.
  lemma ReplaceOne(done: string, rest: string, start: nat, end: nat)
    requires Settled(done) && FirstImage(rest) == Some((start, end))
    ensures var s, next := done + rest, done + (rest[..start] + Marker());
            && start < end <= |rest| && Settled(next)
            && s[..|done| + start] + Marker() + s[|done| + end..] == next + rest[end..]
            && done + Redacted(rest) == next + Redacted(rest[end..])
  {
    hide Settled, Redacted, FirstImage, Marker;
    FirstImageSettles(done, rest, start, end);
    RedactedStep(done, rest, start, end);
    ReplaceWithin(done, rest, start, end, Marker());
  }

  lemma NothingLeft(rest: string)
    ensures FirstImage(rest).None? ==> Redacted(rest) == rest
    ensures Settled("")
  {
  }

  method FindImage(value: string) returns (found: bool, start: nat, end: nat)
    ensures found == FirstImage(value).Some?
    ensures found ==> FirstImage(value) == Some((start, end))
  {
    hide Base64, Find;
    var s := Index(value);
    if s < 0 {
      return false, 0, 0;
    }
    var comma := IndexComma(value, s);
    if comma < 0 {
      return false, 0, 0;
    }
    start, end := s, comma + 1;
    while end < |value|
      invariant comma + 1 <= end <= |value| && DataEnd(value, comma + 1) == DataEnd(value, end)
    {
      if !Base64(value[end]) {
        break;
      }
      end := end + 1;
    }
    found := true;
  }

  // However often the text grows and is searched again, the loop ends, and it has done what the
  // single pass does.
  method RedactImageData(text: string) returns (value: string)
    ensures value == Redacted(text)
  {
    hide Settled, Redacted, Marker, FirstImage;
    value := text;
    ghost var done, rest := "", text;
    NothingLeft(text);
    ConcatEmpty(text);
    ConcatEmpty(Redacted(text));
    while true
      invariant value == done + rest && Settled(done) && done + Redacted(rest) == Redacted(text)
      decreases |rest|
    {
      ImageAfter(done, rest);
      var found, start, end := FindImage(value);
      if !found {
        NothingLeft(rest);
        return;
      }
      ghost var first, behind := start - |done|, end - |done|;
      ReplaceOne(done, rest, first, behind);
      value := value[..start] + Marker() + value[end..];
      done, rest := done + (rest[..first] + Marker()), rest[behind..];
    }
  }

  method Index(value: string) returns (start: int)
    ensures start == if Find(value, 0) == |value| then -1 else Find(value, 0)
  {
    start := 0;
    while start < |value|
      invariant 0 <= start <= |value| && Find(value, 0) == Find(value, start)
    {
      if PrefixAt(value, start) {
        return;
      }
      start := start + 1;
    }
    return -1;
  }

  method IndexComma(value: string, from: nat) returns (comma: int)
    requires from <= |value|
    ensures comma == if FirstIndex(value, ',', from) == |value| then -1 else FirstIndex(value, ',', from)
  {
    comma := from;
    while comma < |value|
      invariant from <= comma <= |value| && FirstIndex(value, ',', from) == FirstIndex(value, ',', comma)
    {
      if value[comma] == ',' {
        return;
      }
      comma := comma + 1;
    }
    return -1;
  }

  // ----- What redaction keeps -----------------------------------------------------------------------------

  // The codes of letters, digits and + - / = _ in ASCII.
  predicate IsData(c: char) {
    var u := c as int;
    48 <= u <= 57 || 65 <= u <= 90 || 97 <= u <= 122 || u in {43, 45, 47, 61, 95}
  }

  // The span has its first comma there.
  predicate Comma(span: string, comma: nat) {
    comma < |span| && span[comma] == ',' && ',' !in span[..comma]
  }

  predicate Begins(s: string, i: nat) {
    i + 11 <= |s| && s[i..i + 11] == "data:image/"
  }

  // An image URL: the prefix, anything up to the first comma, and data.
  ghost predicate IsImage(span: string) {
    && Begins(span, 0)
    && exists comma: nat :: Comma(span, comma) && forall k :: comma < k < |span| ==> IsData(span[k])
  }

  // The text kept and the images taken out, in order.
  function Pieces(s: string): seq<string>
    decreases |s|
  {
    match FirstImage(s)
    case None => [s]
    case Some((start, end)) => ImageIsInside(s); [s[..start]] + Pieces(s[end..])
  }

  function Images(s: string): seq<string>
    decreases |s|
  {
    match FirstImage(s)
    case None => []
    case Some((start, end)) => ImageIsInside(s); [s[start..end]] + Images(s[end..])
  }

  function Weave(pieces: seq<string>, gaps: seq<string>): string
    requires |pieces| == |gaps| + 1
  {
    if gaps == [] then pieces[0] else pieces[0] + (gaps[0] + Weave(pieces[1..], gaps[1..]))
  }

  lemma FirstIsImage(s: string)
    requires FirstImage(s).Some?
    ensures var (start, end) := FirstImage(s).value;
            start <= end <= |s| && IsImage(s[start..end])
  {
    var (start, end) := FirstImage(s).value;
    ImageIsInside(s);
    var span, comma := s[start..end], FirstIndex(s, ',', start);
    CommaIsLater(s, start);
    assert span[..|PREFIX|] == s[start..start + |PREFIX|];
    assert Comma(span, comma - start);
  }

  // The comma lies behind the prefix.
  lemma CommaIsLater(s: string, start: nat)
    requires PrefixAt(s, start)
    ensures FirstIndex(s, ',', start) >= start + |PREFIX|
  {
    var comma := FirstIndex(s, ',', start);
    forall j | start <= j < start + |PREFIX| ensures s[j] != ',' {
      assert s[start..start + |PREFIX|][j - start] == s[j];
      PrefixHasNoComma(j - start);
    }
  }

  lemma PrefixHasNoComma(k: nat)
    requires k < |PREFIX|
    ensures PREFIX[k] != ','
  {
  }

  function Markers(n: nat): seq<string> {
    seq(n, _ => Marker())
  }

  lemma WeaveCons(piece: string, gap: string, pieces: seq<string>, gaps: seq<string>)
    requires |pieces| == |gaps| + 1
    ensures Weave([piece] + pieces, [gap] + gaps) == piece + (gap + Weave(pieces, gaps))
  {
    assert ([piece] + pieces)[1..] == pieces && ([gap] + gaps)[1..] == gaps;
  }

  lemma PiecesStep(s: string, start: nat, end: nat)
    requires FirstImage(s) == Some((start, end))
    ensures start < end <= |s|
    ensures Pieces(s) == [s[..start]] + Pieces(s[end..]) && Images(s) == [s[start..end]] + Images(s[end..])
    ensures Redacted(s) == s[..start] + (Marker() + Redacted(s[end..]))
  {
    ImageIsInside(s);
  }

  lemma MarkersStep(n: nat)
    ensures Markers(n + 1) == [Marker()] + Markers(n)
  {
    hide Marker;
  }

  lemma {:induction false} PiecesFit(s: string)
    ensures |Pieces(s)| == |Images(s)| + 1
    decreases |s|
  {
    if FirstImage(s).Some? {
      var (start, end) := FirstImage(s).value;
      hide FirstImage, Pieces, Images;
      PiecesStep(s, start, end);
      PiecesFit(s[end..]);
    }
  }

  // The text is its pieces with the images between them, the result the same pieces with a marker
  // in the place of each image.
  lemma {:induction false} PiecesStayInOrder(s: string)
    ensures |Pieces(s)| == |Images(s)| + 1
    ensures Weave(Pieces(s), Images(s)) == s
    ensures Weave(Pieces(s), Markers(|Images(s)|)) == Redacted(s)
    decreases |s|
  {
    PiecesFit(s);
    if FirstImage(s).Some? {
      var (start, end) := FirstImage(s).value;
      hide FirstImage, Weave, Marker, Pieces, Images, Redacted, Markers;
      PiecesStep(s, start, end);
      var rest := s[end..];
      PiecesStayInOrder(rest);
      CutTwice(s, start, end);
      WeaveCons(s[..start], s[start..end], Pieces(rest), Images(rest));
      WeaveCons(s[..start], Marker(), Pieces(rest), Markers(|Images(rest)|));
      MarkersStep(|Images(rest)|);
    }
  }

  lemma FirstDataEnds(s: string)
    requires FirstImage(s).Some?
    ensures var (start, end) := FirstImage(s).value;
            start <= end <= |s| && (Pieces(s[end..])[0] != "" ==> !IsData(Pieces(s[end..])[0][0]))
  {
    var (start, end) := FirstImage(s).value;
    assert end < |s| ==> !Base64(s[end]);
    var rest := s[end..];
    assert Pieces(rest)[0] <= rest by {
      if FirstImage(rest).Some? {
        ImageIsInside(rest);
      }
    }
  }

  // The data of an image goes with it to its end: the piece behind does not go on with data.
  lemma {:induction false} DataGoesToItsEnd(s: string, i: nat)
    requires 0 < i < |Pieces(s)|
    ensures Pieces(s)[i] != "" ==> !IsData(Pieces(s)[i][0])
    decreases |s|
  {
    var (start, end) := FirstImage(s).value;
    PiecesStep(s, start, end);
    FirstDataEnds(s);
    hide FirstImage, IsData, Pieces, Images, Redacted, Marker;
    if i > 1 {
      DataGoesToItsEnd(s[end..], i - 1);
    }
  }

  // Whatever was taken out is an image URL with its data.
  lemma {:induction false} OnlyImagesGo(s: string, i: nat)
    requires i < |Images(s)|
    ensures IsImage(Images(s)[i])
    decreases |s|
  {
    var (start, end) := FirstImage(s).value;
    ImageIsInside(s);
    FirstIsImage(s);
    hide IsImage, FirstImage;
    if i > 0 {
      OnlyImagesGo(s[end..], i - 1);
    }
  }

  // ----- Nothing is left to redact ----------------------------------------------------------------------------

  lemma {:induction false} RedactedIsFinal(done: string, rest: string)
    requires Settled(done)
    ensures FirstImage(done + Redacted(rest)).None?
    decreases |rest|
  {
    if FirstImage(rest).None? {
      NothingLeft(rest);
      ImageAfter(done, rest);
    } else {
      var (start, end) := FirstImage(rest).value;
      hide Settled, Redacted, FirstImage, Marker;
      FirstImageSettles(done, rest, start, end);
      RedactedStep(done, rest, start, end);
      RedactedIsFinal(done + (rest[..start] + Marker()), rest[end..]);
    }
  }

  // In the result no comma follows a `data:image/`, and redacting it again changes nothing.
  lemma RedactionIsComplete(s: string)
    ensures var r := Redacted(s);
            && Redacted(r) == r
            && forall i, comma :: 0 <= i <= comma < |r| && Begins(r, i) ==> r[comma] != ','
  {
    NothingLeft("");
    RedactedIsFinal("", s);
    ConcatEmpty(Redacted(s));
    NothingLeft(Redacted(s));
    hide Redacted;
    var r := Redacted(s);
    var start := Find(r, 0);
    forall i, comma | 0 <= i <= comma < |r| && Begins(r, i) ensures r[comma] != ',' {
      assert PrefixAt(r, i);
      assert start <= i;
      assert FirstIndex(r, ',', start) == |r|;
    }
  }
}
