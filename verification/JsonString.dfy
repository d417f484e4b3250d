/** The body of a JSON string (RFC 8259, section 7): decoding a finished body, and decoding the
    part of a body that has arrived so far.

    Text is a sequence of Unicode scalar values. `Unquote` stands for encoding/json's decoder: it
    splits a body into units (one character, or one escape) and turns an escaped surrogate that is
    not half of a pair into U+FFFD. */
module JsonString {
  import opened Options
  import opened Seqs
  import opened Utf8

  const REPLACEMENT := '\U{FFFD}'
  // How many raw bytes the prefix decoder may give up before it returns nothing.
  const BACK_OFF: nat := 16

  // ----- Units ------------------------------------------------------------------------

  // A character that stands for itself, a two-character escape, or \u and four hex digits.
  datatype Unit = Plain(c: char) | Short(c: char) | Hex(digits: string)

  predicate IsHex(c: char) {
    '0' <= c <= '9' || 'a' <= c <= 'f' || 'A' <= c <= 'F'
  }

  function HexDigit(c: char): (d: nat)
    requires IsHex(c)
    ensures d < 16
  {
    if c <= '9' then c as nat - '0' as nat
    else if c <= 'F' then 10 + c as nat - 'A' as nat
    else 10 + c as nat - 'a' as nat
  }

  predicate IsHex4(s: string) {
    |s| == 4 && IsHex(s[0]) && IsHex(s[1]) && IsHex(s[2]) && IsHex(s[3])
  }

  function Hex4(s: string): (v: nat)
    requires IsHex4(s)
    ensures v < 0x1_0000
  {
    ((HexDigit(s[0]) * 16 + HexDigit(s[1])) * 16 + HexDigit(s[2])) * 16 + HexDigit(s[3])
  }

  predicate IsHigh(v: nat) { 0xD800 <= v <= 0xDBFF }

  predicate IsLow(v: nat) { 0xDC00 <= v <= 0xDFFF }

  predicate IsShort(c: char) {
    c == '"' || c == '\\' || c == '/' || c == 'b' || c == 'f' || c == 'n' || c == 'r' || c == 't'
  }

  function ShortValue(c: char): char
    requires IsShort(c)
  {
    match c
    case 'b' => '\U{0008}'
    case 'f' => '\U{000C}'
    case 'n' => '\n'
    case 'r' => '\r'
    case 't' => '\t'
    case _ => c
  }

  predicate LegalUnit(u: Unit) {
    match u
    case Plain(c) => c != '"' && c != '\\' && c >= ' '
    case Short(c) => IsShort(c)
    case Hex(digits) => IsHex4(digits)
  }

  predicate AllLegal(us: seq<Unit>) {
    forall i :: 0 <= i < |us| ==> LegalUnit(us[i])
  }

  function Spell(u: Unit): (s: string)
    ensures s != ""
  {
    match u
    case Plain(c) => [c]
    case Short(c) => ['\\', c]
    case Hex(digits) => ['\\', 'u'] + digits
  }

  function Body(us: seq<Unit>): string {
    if us == [] then "" else Spell(us[0]) + Body(us[1..])
  }

  lemma BodyIsLonger(us: seq<Unit>)
    ensures us != [] ==> Body(us) != ""
  {
  }

  // The first unit of a text, if it opens with a legal one.
  function First(s: string): Option<Unit> {
    if s == "" || s[0] == '"' || s[0] < ' ' then None
    else if s[0] != '\\' then Some(Plain(s[0]))
    else if |s| >= 2 && IsShort(s[1]) then Some(Short(s[1]))
    else if |s| >= 6 && s[1] == 'u' && IsHex4(s[2..6]) then Some(Hex(s[2..6]))
    else None
  }

  lemma FirstOpens(s: string)
    ensures First(s).Some? ==> LegalUnit(First(s).value) && Spell(First(s).value) <= s
  {
  }

  // The units of a body; None when the body is not legal JSON.
  function Split(s: string): (r: Option<seq<Unit>>)
    decreases |s|
  {
    if s == "" then Some([])
    else
      var u := First(s);
      if u.None? then None
      else
        FirstOpens(s);
        Cons(u.value, Split(s[|Spell(u.value)|..]))
  }

  function Cons(u: Unit, rest: Option<seq<Unit>>): Option<seq<Unit>> {
    if rest.None? then None else Some([u] + rest.value)
  }

  lemma ConsIsLegal(u: Unit, us: seq<Unit>)
    requires LegalUnit(u) && AllLegal(us)
    ensures AllLegal([u] + us) && Body([u] + us) == Spell(u) + Body(us)
  {
    TailOfConcat([u], us);
    ConcatEmpty(us);
  }

  lemma {:induction false} SplitIsLegal(s: string)
    requires Split(s).Some?
    ensures AllLegal(Split(s).value) && Body(Split(s).value) == s
    decreases |s|
  {
    if s != "" {
      FirstOpens(s);
      var u := First(s).value;
      hide First, Spell, Body, AllLegal;
      var rest := s[|Spell(u)|..];
      CutPrefix(Spell(u), s);
      SplitIsLegal(rest);
      ConsIsLegal(u, Split(rest).value);
    }
  }

  lemma FirstOfSpelled(u: Unit, t: string)
    requires LegalUnit(u)
    ensures First(Spell(u) + t) == Some(u)
  {
    var s := Spell(u) + t;
    if u.Hex? {
      assert s[2..6] == u.digits;
      assert !IsShort('u');
    }
  }

  function Prepend(us: seq<Unit>, rest: Option<seq<Unit>>): Option<seq<Unit>> {
    if rest.None? then None else Some(us + rest.value)
  }

  lemma PrependCons(u: Unit, us: seq<Unit>, rest: Option<seq<Unit>>)
    ensures Cons(u, Prepend(us, rest)) == Prepend([u] + us, rest)
  {
    if rest.Some? {
      ConcatAssociates([u], us, rest.value);
    }
  }

  lemma SplitOfSpelled(u: Unit, t: string)
    requires LegalUnit(u)
    ensures Split(Spell(u) + t) == Cons(u, Split(t))
  {
    FirstOfSpelled(u, t);
    CutOfConcat(Spell(u), t);
  }

  // Units form a prefix code: a text that starts with whole units splits into them first.
  lemma {:induction false} SplitOfBody(us: seq<Unit>, t: string)
    requires AllLegal(us)
    ensures Split(Body(us) + t) == Prepend(us, Split(t))
    decreases |us|
  {
    if us == [] {
      ConcatEmpty(t);
      if Split(t).Some? {
        ConcatEmpty(Split(t).value);
      }
    } else {
      var u, rest := us[0], us[1..];
      SplitOfBody(rest, t);
      ConcatAssociates(Spell(u), Body(rest), t);
      SplitOfSpelled(u, Body(rest) + t);
      PrependCons(u, rest, Split(t));
      HeadTail(us);
    }
  }

  lemma SplitBody(us: seq<Unit>)
    requires AllLegal(us)
    ensures Split(Body(us)) == Some(us)
  {
    SplitOfBody(us, "");
    ConcatEmpty(Body(us));
    ConcatEmpty(us);
  }

  // ----- Decoding -----------------------------------------------------------------------

  predicate HighUnit(u: Unit) { u.Hex? && IsHex4(u.digits) && IsHigh(Hex4(u.digits)) }

  predicate LowUnit(u: Unit) { u.Hex? && IsHex4(u.digits) && IsLow(Hex4(u.digits)) }

  function UnitValue(u: Unit): char
    requires LegalUnit(u)
  {
    match u
    case Plain(c) => c
    case Short(c) => ShortValue(c)
    case Hex(digits) =>
      if IsHigh(Hex4(digits)) || IsLow(Hex4(digits)) then REPLACEMENT else Hex4(digits) as char
  }

  function PairValue(high: Unit, low: Unit): char
    requires HighUnit(high) && LowUnit(low)
  {
    (0x1_0000 + (Hex4(high.digits) - 0xD800) * 0x400 + (Hex4(low.digits) - 0xDC00)) as char
  }

  predicate OpensPair(us: seq<Unit>) {
    |us| >= 2 && HighUnit(us[0]) && LowUnit(us[1])
  }

  function Decoded(us: seq<Unit>): string
    requires AllLegal(us)
  {
    if us == [] then ""
    else if OpensPair(us) then [PairValue(us[0], us[1])] + Decoded(us[2..])
    else [UnitValue(us[0])] + Decoded(us[1..])
  }

  // The decoder of a finished string body.
  function Unquote(s: string): Option<string> {
    if Split(s).None? then None
    else
      SplitIsLegal(s);
      Some(Decoded(Split(s).value))
  }

  lemma UnquoteBody(us: seq<Unit>)
    requires AllLegal(us)
    ensures Unquote(Body(us)) == Some(Decoded(us))
  {
    SplitBody(us);
  }

  // ----- A body that ends in the first half of a possible pair ------------------------------

  // The number of consecutive backslashes that end at position i.
  function BackslashRun(s: string, i: int): nat
    requires -1 <= i < |s|
    decreases i + 1
  {
    if i < 0 || s[i] != '\\' then 0 else 1 + BackslashRun(s, i - 1)
  }

  // The test looks only at the last six characters and at the backslashes before them.
  predicate TailIsHigh(s: string) {
    |s| >= 6 &&
    var start := |s| - 6;
    s[start] == '\\' && (s[start + 1] == 'u' || s[start + 1] == 'U') &&
    BackslashRun(s, start) % 2 == 1 &&
    IsHex4(s[start + 2..]) && IsHigh(Hex4(s[start + 2..]))
  }

  method EndsWithStreamHighSurrogate(raw: string) returns (r: bool)
    ensures r == TailIsHigh(raw)
  {
    if |raw| < 6 {
      return false;
    }
    var start := |raw| - 6;
    if raw[start] != '\\' || (raw[start + 1] != 'u' && raw[start + 1] != 'U') {
      return false;
    }
    var backslashes := 0;
    var index := start;
    while index >= 0 && raw[index] == '\\'
      invariant -1 <= index <= start
      invariant backslashes + BackslashRun(raw, index) == BackslashRun(raw, start)
    {
      backslashes := backslashes + 1;
      index := index - 1;
    }
    if backslashes % 2 == 0 {
      return false;
    }
    var digits := raw[start + 2..];
    return IsHex4(digits) && IsHigh(Hex4(digits));
  }

  lemma {:induction false} BodyAppend(us: seq<Unit>, vs: seq<Unit>)
    ensures Body(us + vs) == Body(us) + Body(vs)
    decreases |us|
  {
    if us == [] {
      ConcatEmpty(vs);
      ConcatEmpty(Body(vs));
    } else {
      BodyAppend(us[1..], vs);
      TailOfConcat(us, vs);
      ConcatAssociates(Spell(us[0]), Body(us[1..]), Body(vs));
    }
  }

  lemma BodyOne(u: Unit)
    ensures Body([u]) == Spell(u)
  {
    ConcatEmpty(Spell(u));
  }

  lemma BodySnoc(us: seq<Unit>)
    requires us != []
    ensures Body(us) == Body(Init(us)) + Spell(Last(us))
  {
    InitLast(us);
    BodyAppend(Init(us), [Last(us)]);
    BodyOne(Last(us));
  }

  // The body around its n-th unit.
  lemma BodyAround(us: seq<Unit>, n: nat)
    requires n < |us|
    ensures Body(us) == Body(us[..n]) + (Spell(us[n]) + Body(us[n + 1..]))
  {
    CutAround(us, n);
    BodyAppend(us[..n], [us[n]] + us[n + 1..]);
    BodyAppend([us[n]], us[n + 1..]);
    BodyOne(us[n]);
  }

  lemma {:induction false} RunOfPrefix(a: string, b: string, i: int)
    requires -1 <= i < |a|
    ensures BackslashRun(a + b, i) == BackslashRun(a, i)
    decreases i + 1
  {
    if i >= 0 && a[i] == '\\' {
      RunOfPrefix(a, b, i - 1);
    }
  }

  // What one more unit does to the backslash runs of a text that ends in an even run.
  lemma RunAfterUnit(a: string, u: Unit)
    requires LegalUnit(u) && BackslashRun(a, |a| - 1) % 2 == 0
    ensures BackslashRun(a + Spell(u), |a + Spell(u)| - 1) % 2 == 0
    ensures forall p :: |a| < p < |a + Spell(u)| ==> BackslashRun(a + Spell(u), p) % 2 == 0
    ensures BackslashRun(a + Spell(u), |a|) % 2 == if u.Plain? then 0 else 1
  {
    var s := a + Spell(u);
    RunOfPrefix(a, Spell(u), |a| - 1);
    assert s[|a|] == Spell(u)[0];
    assert BackslashRun(s, |a|) == if u.Plain? then 0 else 1 + BackslashRun(s, |a| - 1);
    forall p | |a| < p < |s| ensures BackslashRun(s, p) % 2 == 0 {
      InnerRun(s, |a|, u, p);
    }
  }

  lemma InnerRun(s: string, at: nat, u: Unit, p: nat)
    requires LegalUnit(u) && at < p < at + |Spell(u)| == |s|
    requires s[p] == Spell(u)[p - at] && (!u.Plain? ==> BackslashRun(s, at) % 2 == 1)
    ensures BackslashRun(s, p) % 2 == 0
  {
    if u.Hex? && p > at + 1 {
      assert s[p] == u.digits[p - at - 2];
    }
  }

  // After whole units the number of backslashes is even.
  lemma {:induction false} EvenRun(us: seq<Unit>)
    requires AllLegal(us)
    ensures BackslashRun(Body(us), |Body(us)| - 1) % 2 == 0
    decreases |us|
  {
    if us != [] {
      BodySnoc(us);
      EvenRun(Init(us));
      RunAfterUnit(Body(Init(us)), Last(us));
    }
  }

  // A backslash that ends an odd run opens a unit.
  lemma {:induction false} OddRunOpensUnit(us: seq<Unit>, p: nat) returns (n: nat)
    requires AllLegal(us) && p < |Body(us)| && BackslashRun(Body(us), p) % 2 == 1
    ensures n < |us| && |Body(us[..n])| == p && !us[n].Plain?
    decreases |us|
  {
    BodySnoc(us);
    var init, u := Init(us), Last(us);
    var a := Body(init);
    if p < |a| {
      RunOfPrefix(a, Spell(u), p);
      n := OddRunOpensUnit(init, p);
      TakeOfTake(us, n, |init|);
    } else {
      n := |init|;
      EvenRun(init);
      RunAfterUnit(a, u);
    }
  }

  lemma HighUnitEnds(a: string, u: Unit)
    requires LegalUnit(u) && HighUnit(u) && BackslashRun(a, |a| - 1) % 2 == 0
    ensures TailIsHigh(a + Spell(u))
  {
    RunAfterUnit(a, u);
    HexEnds(a, u.digits);
  }

  // On a legal body the character test is exact: the last unit is a high surrogate.
  lemma TailIsHighExactly(us: seq<Unit>)
    requires AllLegal(us)
    ensures TailIsHigh(Body(us)) <==> us != [] && HighUnit(Last(us))
  {
    hide Body, TailIsHigh;
    if us != [] && HighUnit(Last(us)) {
      BodySnoc(us);
      EvenRun(Init(us));
      HighUnitEnds(Body(Init(us)), Last(us));
    }
    if TailIsHigh(Body(us)) {
      HighTailIsUnit(us);
    }
  }

  lemma HexEnds(a: string, digits: string)
    requires |digits| == 4
    ensures var s := a + (['\\', 'u'] + digits);
            s[|a|] == '\\' && s[|a| + 1] == 'u' && s[|a| + 2..] == digits && |s| == |a| + 6
  {
  }

  lemma HighTailIsUnit(us: seq<Unit>)
    requires AllLegal(us) && TailIsHigh(Body(us))
    ensures us != [] && HighUnit(Last(us))
  {
    var n := OddRunOpensUnit(us, |Body(us)| - 6);
    BodyAround(us, n);
    var rest := us[n + 1..];
    HexReachesEnd(Body(us[..n]), us[n], Body(rest));
    BodyIsLonger(rest);
  }

  // A unit that opens six characters before the end and goes on like \u is the last one.
  lemma HexReachesEnd(a: string, u: Unit, rest: string)
    requires LegalUnit(u) && !u.Plain?
    requires var s := a + (Spell(u) + rest); |s| == |a| + 6 && TailIsHigh(s)
    ensures rest == "" && HighUnit(u)
  {
    var s := a + (Spell(u) + rest);
    assert s[|a| + 1] == Spell(u)[1];
    assert u.Hex?;
    ConcatEmpty(Spell(u));
    HexEnds(a, u.digits);
  }

  // ----- Decoding the part of a body that has arrived --------------------------------------

  // The source steps back byte by byte. An end inside a character decides nothing: it is tried after
  // the end behind that character, and is as unreadable.
  function DecodeBack(raw: string, end: int, minimum: nat, complete: bool): string
    requires end <= |raw|
    decreases end + 1
  {
    if end < minimum then ""
    else if !complete && TailIsHigh(raw[..end]) then DecodeBack(raw, end - 1, minimum, complete)
    else
      match Unquote(raw[..end])
      case Some(decoded) => decoded
      case None => DecodeBack(raw, end - 1, minimum, complete)
  }

  // The first end that may be tried.
  function Floor(raw: string): nat {
    Within(raw, |raw|, BACK_OFF)
  }

  // The longest readable beginning, giving up at most BACK_OFF bytes.
  function DecodePrefix(raw: string, complete: bool): string {
    DecodeBack(raw, |raw|, Floor(raw), complete)
  }

  method DecodeStreamJsonPrefix(raw: string, complete: bool) returns (decoded: string)
    ensures decoded == DecodePrefix(raw, complete)
  {
    var minimum := Floor(raw);
    var end := |raw|;
    while end >= minimum
      invariant minimum - 1 <= end <= |raw|
      invariant DecodeBack(raw, end, minimum, complete) == DecodePrefix(raw, complete)
    {
      var high := EndsWithStreamHighSurrogate(raw[..end]);
      if !(!complete && high) {
        var attempt := Unquote(raw[..end]);
        if attempt.Some? {
          return attempt.value;
        }
      }
      end := end - 1;
    }
    return "";
  }

  // A finished body decodes to itself whatever the window is.
  lemma CompleteBodyDecodes(body: string)
    requires Unquote(body).Some?
    ensures DecodePrefix(body, true) == Unquote(body).value
  {
    assert body[..|body|] == body;
  }

  // A legal beginning of a body consists of its first units.
  lemma PrefixUnits(us: seq<Unit>, end: nat)
    requires AllLegal(us) && end <= |Body(us)| && Split(Body(us)[..end]).Some?
    ensures Split(Body(us)[..end]).value <= us
    ensures Body(Split(Body(us)[..end]).value) == Body(us)[..end]
  {
    var body := Body(us);
    var vs := Split(body[..end]).value;
    SplitIsLegal(body[..end]);
    CutAt(body, end);
    SplitOfBody(vs, body[end..]);
    SplitBody(us);
  }

  // Decoding fewer units gives a beginning, unless the cut splits a surrogate pair.
  lemma {:induction false} DecodedPrefix(us: seq<Unit>, n: nat)
    requires AllLegal(us) && n <= |us| && (n > 0 ==> !HighUnit(us[n - 1]))
    ensures Decoded(us[..n]) <= Decoded(us)
    decreases |us|
  {
    if n > 0 {
      var vs := us[..n];
      if OpensPair(us) {
        DecodedPrefix(us[2..], n - 2);
        assert vs[2..] == us[2..][..n - 2];
      } else {
        DecodedPrefix(us[1..], n - 1);
        assert vs[1..] == us[1..][..n - 1];
      }
    }
  }

  // Whatever has been read of a legal body is a beginning of its full decoding, so nothing that
  // was shown ever has to be taken back.
  lemma PartialDecodeIsPrefix(body: string, cut: nat)
    requires Unquote(body).Some? && cut <= |body|
    ensures DecodePrefix(body[..cut], false) <= Unquote(body).value
  {
    SplitIsLegal(body);
    DecodeBackIsPrefix(Split(body).value, cut, cut, Floor(body[..cut]));
  }

  lemma {:induction false} DecodeBackIsPrefix(us: seq<Unit>, cut: nat, end: int, minimum: nat)
    requires AllLegal(us) && end <= cut <= |Body(us)|
    ensures DecodeBack(Body(us)[..cut], end, minimum, false) <= Decoded(us)
    decreases end + 1
  {
    if end >= minimum {
      var raw := Body(us)[..cut];
      if TailIsHigh(raw[..end]) || Unquote(raw[..end]).None? {
        DecodeBackIsPrefix(us, cut, end - 1, minimum);
      } else {
        TakeOfTake(Body(us), end, cut);
        ReadableBeginning(us, end);
      }
    }
  }

  lemma ReadableBeginning(us: seq<Unit>, end: nat)
    requires AllLegal(us) && end <= |Body(us)|
    requires Unquote(Body(us)[..end]).Some? && !TailIsHigh(Body(us)[..end])
    ensures Unquote(Body(us)[..end]).value <= Decoded(us)
  {
    PrefixUnits(us, end);
    var vs := Split(Body(us)[..end]).value;
    TailIsHighExactly(vs);
    assert vs == us[..|vs|];
    DecodedPrefix(us, |vs|);
  }

  // ----- How much is held back ----------------------------------------------------------------

  // How many units the first character has.
  function CharUnits(us: seq<Unit>): (n: nat)
    ensures 1 <= n <= 2 && (us != [] ==> n <= |us|)
  {
    if OpensPair(us) then 2 else 1
  }

  function CharSize(us: seq<Unit>): nat
    requires us != []
  {
    |Spell(us[0])| + if OpensPair(us) then |Spell(us[1])| else 0
  }

  // No surrogate escape stands alone.
  predicate Paired(us: seq<Unit>) {
    us == [] ||
    ((OpensPair(us) || (!HighUnit(us[0]) && !LowUnit(us[0]))) && Paired(us[CharUnits(us)..]))
  }

  // How many units belong to characters that lie wholly within the first `cut` raw characters.
  function WholeUnits(us: seq<Unit>, cut: nat): (n: nat)
    ensures n <= |us|
  {
    if us == [] || cut < CharSize(us) then 0
    else CharUnits(us) + WholeUnits(us[CharUnits(us)..], cut - CharSize(us))
  }

  // With every surrogate paired, a cut withholds exactly the character it splits: at most eleven
  // raw bytes, so the window of sixteen is always wide enough.
  lemma HeldBackIsOneCharacter(us: seq<Unit>, cut: nat)
    requires AllLegal(us) && Paired(us) && cut <= |Body(us)|
    ensures var n := WholeUnits(us, cut);
            && WholeBefore(us, cut, n)
            && DecodePrefix(Body(us)[..cut], false) == Decoded(us[..n])
  {
    WholeUnitsAreWhole(us, cut);
    SplitCharacterIsNear(us, cut);
    BacksOffTo(us, cut, cut, Floor(Body(us)[..cut]));
  }

  // What a cut withholds are escapes, one byte a character.
  lemma SplitCharacterIsNear(us: seq<Unit>, cut: nat)
    requires AllLegal(us) && cut <= |Body(us)| && WholeBefore(us, cut, WholeUnits(us, cut))
    ensures Floor(Body(us)[..cut]) <= |Body(us[..WholeUnits(us, cut)])|
  {
    hide Within, WholeUnits;
    var n := WholeUnits(us, cut);
    var from, part := |Body(us[..n])|, Body(us)[..cut];
    if from < cut {
      PartOfCharacterIsAscii(us, n, cut);
      AsciiSize(part[from..cut]);
    }
    WithinExactly(part, from, cut, BACK_OFF);
  }

  lemma EscapeIsAscii(u: Unit)
    requires LegalUnit(u) && !u.Plain?
    ensures Ascii(Spell(u))
  {
  }

  lemma PartOfCharacterIsAscii(us: seq<Unit>, n: nat, cut: nat)
    requires AllLegal(us) && n < |us| && cut <= |Body(us)|
    requires |Body(us[..n])| < cut < |Body(us[..n])| + CharSize(us[n..])
    ensures Ascii(Body(us)[..cut][|Body(us[..n])|..cut])
  {
    var rest, from := us[n..], |Body(us[..n])|;
    CutAt(us, n);
    BodyAppend(us[..n], rest);
    CharSizeIsBody(rest);
    BodyTake(rest, CharUnits(rest));
    CharacterIsAscii(rest);
    hide Body, CharSize, CharUnits;
    var c := Body(rest[..CharUnits(rest)]);
    forall i | 0 <= i < cut - from ensures Body(us)[..cut][from..cut][i] == c[i] {
      assert Body(us)[from + i] == Body(rest)[i];
    }
  }

  // A character spelled with more than one raw character is an escape, or a pair of them.
  lemma CharacterIsAscii(us: seq<Unit>)
    requires AllLegal(us) && us != [] && CharSize(us) > 1
    ensures Ascii(Body(us[..CharUnits(us)]))
  {
    assert LegalUnit(us[0]);
    EscapeIsAscii(us[0]);
    BodyOne(us[0]);
    if OpensPair(us) {
      assert LegalUnit(us[1]);
      EscapeIsAscii(us[1]);
      BodyOne(us[1]);
      assert us[..2] == [us[0]] + [us[1]];
      BodyAppend([us[0]], [us[1]]);
    } else {
      assert us[..1] == [us[0]];
    }
  }

  lemma CharSizeIsBody(us: seq<Unit>)
    requires AllLegal(us) && us != []
    ensures |Body(us[..CharUnits(us)])| == CharSize(us) <= 12
  {
    assert LegalUnit(us[0]);
    if OpensPair(us) {
      assert LegalUnit(us[1]);
      assert us[..2] == [us[0]] + [us[1]];
      BodyAppend([us[0]], [us[1]]);
      BodyOne(us[1]);
    } else {
      assert us[..1] == [us[0]];
    }
    BodyOne(us[0]);
  }

  // The first n units are the characters that lie wholly before the cut.
  predicate WholeBefore(us: seq<Unit>, cut: nat, n: nat) {
    && n <= |us|
    && |Body(us[..n])| <= cut <= |Body(us[..n])| + 11
    && (n < |us| ==> cut < |Body(us[..n])| + CharSize(us[n..]))
    && (n == |us| ==> cut == |Body(us[..n])|)
  }

  lemma {:induction false} WholeUnitsAreWhole(us: seq<Unit>, cut: nat)
    requires AllLegal(us) && cut <= |Body(us)|
    ensures WholeBefore(us, cut, WholeUnits(us, cut))
    decreases |us|
  {
    hide CharSize, CharUnits;
    if us != [] {
      CharSizeIsBody(us);
      if cut < CharSize(us) {
        NoWholeChar(us, cut);
      } else {
        BodySplit(us, CharUnits(us));
        WholeUnitsAreWhole(us[CharUnits(us)..], cut - CharSize(us));
        WholeBeforeShifts(us, cut);
      }
    }
  }

  lemma NoWholeChar(us: seq<Unit>, cut: nat)
    requires us != [] && cut < CharSize(us) <= 12
    ensures WholeBefore(us, cut, WholeUnits(us, cut))
  {
    assert us[0..] == us;
  }

  lemma WholeBeforeShifts(us: seq<Unit>, cut: nat)
    requires AllLegal(us) && us != [] && CharSize(us) <= cut
    requires |Body(us[..CharUnits(us)])| == CharSize(us)
    requires var rest, left := us[CharUnits(us)..], cut - CharSize(us);
             WholeBefore(rest, left, WholeUnits(rest, left))
    ensures WholeBefore(us, cut, WholeUnits(us, cut))
  {
    var k := CharUnits(us);
    var n := k + WholeUnits(us[k..], cut - CharSize(us));
    BodyShift(us, k, n);
    DropOfDrop(us, k, n);
  }

  // Whole characters never end after the first half of a pair.
  lemma FirstCharacterEndsWell(us: seq<Unit>)
    requires us != [] && Paired(us)
    ensures !HighUnit(us[CharUnits(us) - 1]) && Paired(us[CharUnits(us)..])
  {
  }

  lemma {:induction false} WholeUnitsEndWell(us: seq<Unit>, cut: nat)
    requires Paired(us)
    ensures var n := WholeUnits(us, cut); n > 0 ==> !HighUnit(us[n - 1])
    decreases |us|
  {
    if us != [] && cut >= CharSize(us) {
      FirstCharacterEndsWell(us);
      hide HighUnit, Paired, CharUnits, CharSize;
      var k := CharUnits(us);
      var m := WholeUnits(us[k..], cut - CharSize(us));
      WholeUnitsEndWell(us[k..], cut - CharSize(us));
      if m > 0 {
        assert us[k..][m - 1] == us[k + m - 1];
      }
    }
  }

  lemma BodySplit(us: seq<Unit>, k: nat)
    requires k <= |us|
    ensures |Body(us)| == |Body(us[..k])| + |Body(us[k..])|
  {
    CutAt(us, k);
    BodyAppend(us[..k], us[k..]);
  }

  // The first n units are the first k and then the next n - k.
  lemma BodyShift(us: seq<Unit>, k: nat, n: nat)
    requires k <= n <= |us|
    ensures |Body(us[..n])| == |Body(us[..k])| + |Body(us[k..][..n - k])|
  {
    TakeOfDrop(us, k, n);
    BodyAppend(us[..k], us[k..][..n - k]);
  }

  lemma {:induction false} BacksOffTo(us: seq<Unit>, cut: nat, end: nat, minimum: nat)
    requires AllLegal(us) && Paired(us) && cut <= |Body(us)|
    requires |Body(us[..WholeUnits(us, cut)])| <= end <= cut
    requires minimum <= |Body(us[..WholeUnits(us, cut)])|
    ensures DecodeBack(Body(us)[..cut], end, minimum, false) == Decoded(us[..WholeUnits(us, cut)])
    decreases end
  {
    hide Decoded, Body, WholeUnits, Unquote, TailIsHigh, Paired;
    TakeOfTake(Body(us), end, cut);
    if end == |Body(us[..WholeUnits(us, cut)])| {
      StopsAtWholeUnits(us, cut);
    } else {
      SkipsSplitCharacter(us, cut, end);
      BacksOffTo(us, cut, end - 1, minimum);
    }
  }

  lemma StopsAtWholeUnits(us: seq<Unit>, cut: nat)
    requires AllLegal(us) && Paired(us) && cut <= |Body(us)|
    ensures var head := us[..WholeUnits(us, cut)];
            && |Body(head)| <= |Body(us)| && Body(us)[..|Body(head)|] == Body(head)
            && !TailIsHigh(Body(head)) && Unquote(Body(head)) == Some(Decoded(head))
  {
    var n := WholeUnits(us, cut);
    WholeUnitsEndWell(us, cut);
    BodyTake(us, n);
    TailIsHighExactly(us[..n]);
    UnquoteBody(us[..n]);
  }

  lemma BodyTake(us: seq<Unit>, n: nat)
    requires n <= |us|
    ensures |Body(us[..n])| <= |Body(us)| && Body(us)[..|Body(us[..n])|] == Body(us[..n])
  {
    CutAt(us, n);
    BodyAppend(us[..n], us[n..]);
    CutOfConcat(Body(us[..n]), Body(us[n..]));
  }

  lemma SkipsSplitCharacter(us: seq<Unit>, cut: nat, end: nat)
    requires AllLegal(us) && Paired(us) && cut <= |Body(us)|
    requires |Body(us[..WholeUnits(us, cut)])| < end <= cut
    ensures TailIsHigh(Body(us)[..end]) || Unquote(Body(us)[..end]).None?
  {
    hide Body, Split, WholeUnits, WholeBefore, Paired, TailIsHigh, HighUnit;
    WholeUnitsAreWhole(us, cut);
    if Split(Body(us)[..end]).Some? {
      PrefixUnits(us, end);
      var vs := Split(Body(us)[..end]).value;
      PrefixIsTake(vs, us);
      InsideCharacter(us, cut, WholeUnits(us, cut), |vs|);
      TailIsHighExactly(vs);
    }
  }

  // Units that end strictly inside a character end after the first half of a pair.
  lemma InsideCharacter(us: seq<Unit>, cut: nat, n: nat, m: nat)
    requires AllLegal(us) && WholeBefore(us, cut, n) && m <= |us|
    requires |Body(us[..n])| < |Body(us[..m])| <= cut
    ensures m > 0 && HighUnit(us[m - 1])
  {
    if m <= n {
      BodyShift(us, m, n);
    } else {
      BodyShift(us, n, m);
      var rest := us[n..];
      CharSizeIsBody(rest);
      if m - n >= CharUnits(rest) {
        BodyShift(rest, CharUnits(rest), m - n);
      }
    }
  }

  // ----- Every body, legal or not ------------------------------------------------------------------

  // The units a text opens with, up to its end or to what opens no legal unit.
  function Leading(s: string): seq<Unit>
    decreases |s|
  {
    if First(s).None? then []
    else
      FirstOpens(s);
      [First(s).value] + Leading(s[|Spell(First(s).value)|..])
  }

  lemma {:induction false} LeadingOpens(s: string)
    ensures AllLegal(Leading(s)) && Body(Leading(s)) <= s && First(s[|Body(Leading(s))|..]).None?
    decreases |s|
  {
    if First(s).Some? {
      FirstOpens(s);
      var u := First(s).value;
      var rest := s[|Spell(u)|..];
      LeadingOpens(rest);
      var us := Leading(rest);
      ConsIsLegal(u, us);
      CutPrefix(Spell(u), s);
      CutPrefix(Body(us), rest);
      ConcatAssociates(Spell(u), Body(us), rest[|Body(us)|..]);
      CutOfConcat(Body([u] + us), rest[|Body(us)|..]);
    } else {
      assert s[0..] == s;
    }
  }

  // How many units are left when the high surrogates at the end are dropped.
  function SettledUnits(us: seq<Unit>): (n: nat)
    ensures n <= |us| && (n > 0 ==> !HighUnit(us[n - 1]))
    ensures forall k :: n <= k < |us| ==> HighUnit(us[k])
  {
    if us != [] && HighUnit(Last(us)) then SettledUnits(Init(us)) else |us|
  }

  // The units that are read: all of a finished body's, the settled ones of an unfinished one's.
  function ReadUnits(us: seq<Unit>, complete: bool): (n: nat)
    ensures n <= |us|
  {
    if complete then |us| else SettledUnits(us)
  }

  lemma FirstOfPart(t: string, n: nat)
    requires First(t).None? && 0 < n <= |t|
    ensures First(t[..n]).None? && Split(t[..n]).None?
  {
  }

  // Behind the leading units nothing is readable.
  lemma NothingReadableBeyond(us: seq<Unit>, t: string, end: nat)
    requires AllLegal(us) && First(t).None? && |Body(us)| < end <= |Body(us) + t|
    ensures Unquote((Body(us) + t)[..end]).None?
  {
    var part := t[..end - |Body(us)|];
    TakeBeyond(Body(us), t, end);
    FirstOfPart(t, end - |Body(us)|);
    hide First, Body;
    SplitOfBody(us, part);
  }

  // Among them only whole units are.
  lemma ReadableEnds(us: seq<Unit>, t: string, end: nat) returns (n: nat)
    requires AllLegal(us) && First(t).None? && end <= |Body(us) + t|
    requires Unquote((Body(us) + t)[..end]).Some?
    ensures n <= |us| && end == |Body(us[..n])| && (Body(us) + t)[..end] == Body(us[..n])
  {
    if end > |Body(us)| {
      NothingReadableBeyond(us, t, end);
    }
    hide First, Body, AllLegal;
    TakeWithin(Body(us), t, end);
    PrefixUnits(us, end);
    n := |Split(Body(us)[..end]).value|;
    PrefixIsTake(Split(Body(us)[..end]).value, us);
  }

  // What is read of any body, legal or not: its read units when they end within the window of
  // BACK_OFF bytes, otherwise nothing.
  lemma ReadExactly(us: seq<Unit>, t: string, complete: bool)
    requires AllLegal(us) && First(t).None?
    ensures var n := ReadUnits(us, complete);
            && |Body(us[..n])| <= |Body(us)|
            && DecodePrefix(Body(us) + t, complete)
               == if Size((Body(us) + t)[|Body(us[..n])|..]) <= BACK_OFF then Decoded(us[..n]) else ""
  {
    var raw, from := Body(us) + t, |Body(us[..ReadUnits(us, complete)])|;
    BodyTake(us, ReadUnits(us, complete));
    ReadsBackTo(us, t, complete, |raw|, Floor(raw));
    WithinExactly(raw, from, |raw|, BACK_OFF);
    assert raw[from..|raw|] == raw[from..];
    assert (Body(us) + t)[..|Body(us) + t|] == Body(us) + t;
  }

  lemma {:induction false} ReadsBackTo(us: seq<Unit>, t: string, complete: bool, end: int, minimum: nat)
    requires AllLegal(us) && First(t).None? && end <= |Body(us) + t|
    requires end >= |Body(us[..ReadUnits(us, complete)])|
    ensures var n := ReadUnits(us, complete);
            DecodeBack(Body(us) + t, end, minimum, complete)
            == if minimum <= |Body(us[..n])| then Decoded(us[..n]) else ""
    decreases end + 1
  {
    hide Decoded, Body, Unquote, TailIsHigh, First, HighUnit;
    var raw, n := Body(us) + t, ReadUnits(us, complete);
    if end >= minimum {
      if end == |Body(us[..n])| {
        StopsAtUnits(us, t, n);
      } else {
        SkipsUnread(us, t, complete, end);
        ReadsBackTo(us, t, complete, end - 1, minimum);
      }
    }
  }

  lemma StopsAtUnits(us: seq<Unit>, t: string, n: nat)
    requires AllLegal(us) && n <= |us|
    ensures var head := us[..n];
            && |Body(head)| <= |Body(us)| && (Body(us) + t)[..|Body(head)|] == Body(head)
            && Unquote(Body(head)) == Some(Decoded(head))
            && (TailIsHigh(Body(head)) <==> n > 0 && HighUnit(us[n - 1]))
  {
    BodyTake(us, n);
    CutOfConcat(Body(us), t);
    TakeOfTake(Body(us) + t, |Body(us[..n])|, |Body(us)|);
    TailIsHighExactly(us[..n]);
    UnquoteBody(us[..n]);
  }

  lemma SkipsUnread(us: seq<Unit>, t: string, complete: bool, end: nat)
    requires AllLegal(us) && First(t).None?
    requires |Body(us[..ReadUnits(us, complete)])| < end <= |Body(us) + t|
    ensures Unquote((Body(us) + t)[..end]).None? || (!complete && TailIsHigh((Body(us) + t)[..end]))
  {
    if Unquote((Body(us) + t)[..end]).Some? {
      var m := ReadableEnds(us, t, end);
      var n := ReadUnits(us, complete);
      if m <= n {
        BodyShift(us, m, n);
      }
      TailIsHighExactly(us[..m]);
    }
  }

  // Whatever is read of a beginning of a body is a beginning of what its settled units say.
  lemma {:induction false} ReadingIsSettled(us: seq<Unit>, t: string, cut: nat, end: int, minimum: nat)
    requires AllLegal(us) && First(t).None? && end <= cut <= |Body(us) + t|
    ensures DecodeBack((Body(us) + t)[..cut], end, minimum, false) <= Decoded(us[..SettledUnits(us)])
    decreases end + 1
  {
    if end >= minimum {
      var raw := (Body(us) + t)[..cut];
      TakeOfTake(Body(us) + t, end, cut);
      if TailIsHigh(raw[..end]) || Unquote(raw[..end]).None? {
        ReadingIsSettled(us, t, cut, end - 1, minimum);
      } else {
        ReadableIsSettled(us, t, end);
      }
    }
  }

  lemma ReadableIsSettled(us: seq<Unit>, t: string, end: nat)
    requires AllLegal(us) && First(t).None? && end <= |Body(us) + t|
    requires var read := (Body(us) + t)[..end]; Unquote(read).Some? && !TailIsHigh(read)
    ensures Unquote((Body(us) + t)[..end]).value <= Decoded(us[..SettledUnits(us)])
  {
    var m := ReadableEnds(us, t, end);
    hide Body, Decoded, TailIsHigh, First;
    var settled := us[..SettledUnits(us)];
    TailIsHighExactly(us[..m]);
    UnquoteBody(us[..m]);
    TakeOfTake(us, m, SettledUnits(us));
    DecodedPrefix(settled, m);
  }

  // The test a caller can make on a body: its read units end within the window, or it shows
  // nothing but high surrogates before the first thing that is no unit.
  predicate InReach(body: string, complete: bool) {
    LeadingOpens(body);
    var us := Leading(body);
    BodyTake(us, ReadUnits(us, complete));
    Size(body[|Body(us[..ReadUnits(us, complete)])|..]) <= BACK_OFF || SettledUnits(us) == 0
  }

  lemma SettledIsRead(us: seq<Unit>, complete: bool)
    requires AllLegal(us)
    ensures Decoded(us[..SettledUnits(us)]) <= Decoded(us[..ReadUnits(us, complete)])
    ensures SettledUnits(us) == 0 ==> Decoded(us[..SettledUnits(us)]) == ""
  {
    assert us[..|us|] == us;
    DecodedPrefix(us, SettledUnits(us));
  }

  // Cut behind the settled units, the text shows them all.
  lemma SettledAreShown(us: seq<Unit>, t: string)
    requires AllLegal(us)
    ensures var cut := |Body(us[..SettledUnits(us)])|;
            && cut <= |Body(us) + t|
            && DecodePrefix((Body(us) + t)[..cut], false) == Decoded(us[..SettledUnits(us)])
    ensures SettledUnits(us) > 0 ==> Decoded(us[..SettledUnits(us)]) != ""
  {
    var n := SettledUnits(us);
    var head := Body(us[..n]);
    StopsAtUnits(us, t, n);
    assert head[..|head|] == head;
  }

  // No reading of a beginning has to be taken back, if and only if the body is in reach.
  lemma ReadingsAgreeExactly(body: string, complete: bool)
    ensures (forall cut :: 0 <= cut <= |body| ==> DecodePrefix(body[..cut], false) <= DecodePrefix(body, complete))
            <==> InReach(body, complete)
  {
    LeadingOpens(body);
    var us := Leading(body);
    var t := body[|Body(us)|..];
    CutPrefix(Body(us), body);
    ReadExactly(us, t, complete);
    if InReach(body, complete) {
      SettledIsRead(us, complete);
      hide Leading, First, Decoded, DecodeBack;
      forall cut | 0 <= cut <= |body|
        ensures DecodePrefix(body[..cut], false) <= DecodePrefix(body, complete)
      {
        ReadingIsSettled(us, t, cut, cut, Floor(body[..cut]));
      }
    } else {
      SettledAreShown(us, t);
    }
  }

  // A legal body is in reach.
  lemma LegalIsInReach(body: string)
    requires Unquote(body).Some?
    ensures InReach(body, true)
  {
    LeadingOpens(body);
    var us := Leading(body);
    var t := body[|Body(us)|..];
    CutPrefix(Body(us), body);
    SplitOfBody(us, t);
    assert us[..|us|] == us && t == "";
  }

  lemma {:induction false} LeadingOfBody(us: seq<Unit>, t: string)
    requires AllLegal(us) && First(t).None?
    ensures Leading(Body(us) + t) == us
    decreases |us|
  {
    if us == [] {
      ConcatEmpty(t);
    } else {
      var u, rest := us[0], us[1..];
      LeadingOfBody(rest, t);
      ConcatAssociates(Spell(u), Body(rest), t);
      FirstOfSpelled(u, Body(rest) + t);
      CutOfConcat(Spell(u), Body(rest) + t);
      HeadTail(us);
    }
  }

  // A backslash that opens no escape: the units before it are read while at most fifteen bytes
  // follow, and are lost from the sixteenth on, although the stream has shown them.
  lemma BadEscapeOutOfReach(us: seq<Unit>, tail: string, complete: bool)
    requires AllLegal(us) && First(['\\'] + tail).None?
    requires us != [] ==> !HighUnit(Last(us))
    ensures DecodePrefix(Body(us), false) == Decoded(us)
    ensures DecodePrefix(Body(us) + (['\\'] + tail), complete) == if Size(tail) <= 15 then Decoded(us) else ""
    ensures InReach(Body(us) + (['\\'] + tail), complete) <==> Size(tail) <= 15 || us == []
  {
    hide First, EncodeChar;
    var t := ['\\'] + tail;
    assert us[..|us|] == us && SettledUnits(us) == |us|;
    ReadExactly(us, t, complete);
    CutOfConcat(Body(us), t);
    SizeOfConcat(['\\'], tail);
    BackslashSize();
    SettledAreShown(us, "");
    ConcatEmpty(Body(us));
    assert Body(us)[..|Body(us)|] == Body(us);
    LeadingOfBody(us, t);
  }

  lemma BackslashSize()
    ensures Size(['\\']) == 1
  {
    AsciiSize(['\\']);
  }
}
