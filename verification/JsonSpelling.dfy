/** Writing a text as the body of a JSON string, by section 7 of RFC 8259, and reading it back.

    The writer is given from the code points alone; a body has many spellings. Reading is the
    inverse of writing, and reads nothing else. */
module JsonSpelling {
  import opened Options
  import opened Seqs
  import opened JsonString

  // ----- Writing --------------------------------------------------------------------------------

  // The case of each of four hexadecimal digits.
  datatype Cases = Cases(a: bool, b: bool, c: bool, d: bool)

  // As it is; as a two-character escape; as \u and its code point; as the escapes of a surrogate
  // pair. A surrogate that is not half of a pair stands for U+FFFD.
  datatype Way =
    | Literal
    | Letter
    | CodePoint(cases: Cases)
    | Surrogates(high: Cases, low: Cases)
    | Alone(surrogate: nat, cases: Cases)

  function Digit(d: nat, upper: bool): char
    requires d < 16
  {
    if d < 10 then "0123456789"[d] else if upper then "ABCDEF"[d - 10] else "abcdef"[d - 10]
  }

  function Digits(v: nat, cases: Cases): string
    requires v < 0x1_0000
  {
    [Digit(v / 0x1000, cases.a), Digit(v / 0x100 % 0x10, cases.b),
     Digit(v / 0x10 % 0x10, cases.c), Digit(v % 0x10, cases.d)]
  }

  function Escape(v: nat, cases: Cases): string
    requires v < 0x1_0000
  {
    "\\u" + Digits(v, cases)
  }

  // The characters that have a letter, each with it.
  const LETTERS: map<int, char> :=
    map[0x08 := 'b', 0x09 := 't', 0x0A := 'n', 0x0C := 'f', 0x0D := 'r', 0x22 := '"', 0x2F := '/', 0x5C := '\\']

  predicate Fits(c: char, way: Way) {
    var u := c as int;
    match way
    case Literal => u >= 0x20 && u != 0x22 && u != 0x5C
    case Letter => u in LETTERS
    case CodePoint(_) => u < 0x1_0000
    case Surrogates(_, _) => u >= 0x1_0000
    case Alone(surrogate, _) => u == 0xFFFD && 0xD800 <= surrogate < 0xE000
  }

  function Write(c: char, way: Way): string
    requires Fits(c, way)
  {
    var u := c as int;
    match way
    case Literal => [c]
    case Letter => ['\\', LETTERS[u]]
    case CodePoint(cases) => Escape(u, cases)
    case Surrogates(high, low) =>
      Escape(0xD800 + (u - 0x1_0000) / 0x400, high) + Escape(0xDC00 + (u - 0x1_0000) % 0x400, low)
    case Alone(surrogate, cases) => Escape(surrogate, cases)
  }

  predicate AloneBetween(way: Way, from: nat, to: nat) {
    way.Alone? && from <= way.surrogate < to
  }

  // Every character is written in a way that fits it, and no two surrogates meant to stand alone
  // make a pair.
  predicate Spells(text: string, ways: seq<Way>) {
    && |ways| == |text|
    && (forall i :: 0 <= i < |text| ==> Fits(text[i], ways[i]))
    && (forall i :: 0 < i < |text| ==>
          !(AloneBetween(ways[i - 1], 0xD800, 0xDC00) && AloneBetween(ways[i], 0xDC00, 0xE000)))
  }

  function Written(text: string, ways: seq<Way>): string
    requires Spells(text, ways)
  {
    if text == "" then ""
    else
      SpellsRest(text, ways);
      Write(text[0], ways[0]) + Written(text[1..], ways[1..])
  }

  lemma SpellsRest(text: string, ways: seq<Way>)
    requires Spells(text, ways) && text != ""
    ensures Spells(text[1..], ways[1..]) && Fits(text[0], ways[0])
  {
    hide Fits, AloneBetween;
    forall i | 0 < i < |text[1..]|
      ensures !(AloneBetween(ways[1..][i - 1], 0xD800, 0xDC00) && AloneBetween(ways[1..][i], 0xDC00, 0xE000))
    {
      assert ways[1..][i - 1] == ways[i] && ways[1..][i] == ways[i + 1];
    }
  }

  // ----- Digits ------------------------------------------------------------------------------------

  lemma DigitReads(d: nat, upper: bool)
    requires d < 16
    ensures IsHex(Digit(d, upper)) && HexDigit(Digit(d, upper)) == d
  {
  }

  lemma FourDigits(v: nat)
    requires v < 0x1_0000
    ensures v / 0x1000 < 16
    ensures ((v / 0x1000 * 16 + v / 0x100 % 0x10) * 16 + v / 0x10 % 0x10) * 16 + v % 0x10 == v
  {
  }

  lemma DigitsRead(v: nat, cases: Cases)
    requires v < 0x1_0000
    ensures IsHex4(Digits(v, cases)) && Hex4(Digits(v, cases)) == v
  {
    hide Digit, HexDigit, IsHex;
    FourDigits(v);
    DigitReads(v / 0x1000, cases.a);
    DigitReads(v / 0x100 % 0x10, cases.b);
    DigitReads(v / 0x10 % 0x10, cases.c);
    DigitReads(v % 0x10, cases.d);
  }

  lemma DigitIsWritten(c: char)
    requires IsHex(c)
    ensures Digit(HexDigit(c), c <= 'F') == c
  {
  }

  function CasesOf(s: string): Cases
    requires IsHex4(s)
  {
    Cases(s[0] <= 'F', s[1] <= 'F', s[2] <= 'F', s[3] <= 'F')
  }

  lemma DigitsAreWritten(s: string)
    requires IsHex4(s)
    ensures Digits(Hex4(s), CasesOf(s)) == s
  {
    hide Digit, IsHex;
    DigitIsWritten(s[0]);
    DigitIsWritten(s[1]);
    DigitIsWritten(s[2]);
    DigitIsWritten(s[3]);
    var a, b, c, d := HexDigit(s[0]), HexDigit(s[1]), HexDigit(s[2]), HexDigit(s[3]);
    PlacesOf(a, b, c, d);
  }

  lemma PlacesOf(a: nat, b: nat, c: nat, d: nat)
    requires a < 16 && b < 16 && c < 16 && d < 16
    ensures var v := ((a * 16 + b) * 16 + c) * 16 + d;
            v / 0x1000 == a && v / 0x100 % 0x10 == b && v / 0x10 % 0x10 == c && v % 0x10 == d
  {
  }

  // ----- Reading what was written ----------------------------------------------------------------------

  // The units of one written character.
  function UnitsOf(c: char, way: Way): seq<Unit>
    requires Fits(c, way)
  {
    var u := c as int;
    match way
    case Literal => [Plain(c)]
    case Letter => [Short(LETTERS[u])]
    case CodePoint(cases) => [Hex(Digits(u, cases))]
    case Surrogates(high, low) =>
      [Hex(Digits(0xD800 + (u - 0x1_0000) / 0x400, high)), Hex(Digits(0xDC00 + (u - 0x1_0000) % 0x400, low))]
    case Alone(surrogate, cases) => [Hex(Digits(surrogate, cases))]
  }

  lemma UnitsAreWritten(c: char, way: Way)
    requires Fits(c, way)
    ensures AllLegal(UnitsOf(c, way)) && Body(UnitsOf(c, way)) == Write(c, way)
  {
    hide IsHex4, Digits;
    var us := UnitsOf(c, way);
    match way
    case Literal =>
      BodyOne(us[0]);
    case Letter =>
      BodyOne(us[0]);
    case CodePoint(cases) =>
      DigitsRead(c as int, cases);
      BodyOne(us[0]);
    case Surrogates(high, low) =>
      DigitsRead(0xD800 + (c as int - 0x1_0000) / 0x400, high);
      DigitsRead(0xDC00 + (c as int - 0x1_0000) % 0x400, low);
      assert us == [us[0]] + [us[1]];
      BodyAppend([us[0]], [us[1]]);
      BodyOne(us[0]);
      BodyOne(us[1]);
    case Alone(surrogate, cases) =>
      DigitsRead(surrogate, cases);
      BodyOne(us[0]);
  }

  lemma PairIsDecoded(c: char, way: Way, rest: seq<Unit>)
    requires way.Surrogates? && Fits(c, way) && AllLegal(rest)
    ensures AllLegal(UnitsOf(c, way) + rest)
    ensures Decoded(UnitsOf(c, way) + rest) == [c] + Decoded(rest)
  {
    hide IsHex4, Digits, Hex4;
    UnitsAreWritten(c, way);
    var us := UnitsOf(c, way) + rest;
    DigitsRead(0xD800 + (c as int - 0x1_0000) / 0x400, way.high);
    DigitsRead(0xDC00 + (c as int - 0x1_0000) % 0x400, way.low);
    assert us[2..] == rest;
  }

  // A written character is read before whatever follows, unless it is the first half of a pair
  // that the next unit completes.
  lemma WrittenIsDecoded(c: char, way: Way, rest: seq<Unit>)
    requires Fits(c, way) && AllLegal(rest)
    requires AloneBetween(way, 0xD800, 0xDC00) ==> rest == [] || !LowUnit(rest[0])
    ensures AllLegal(UnitsOf(c, way) + rest)
    ensures Decoded(UnitsOf(c, way) + rest) == [c] + Decoded(rest)
  {
    hide IsHex4, Digits, Hex4;
    UnitsAreWritten(c, way);
    var us := UnitsOf(c, way) + rest;
    match way
    case Literal =>
      assert us[1..] == rest;
    case Letter =>
      assert us[1..] == rest;
    case CodePoint(cases) =>
      DigitsRead(c as int, cases);
      assert us[1..] == rest;
    case Surrogates(_, _) =>
      PairIsDecoded(c, way, rest);
    case Alone(surrogate, cases) =>
      DigitsRead(surrogate, cases);
      assert us[1..] == rest;
  }

  function AllUnits(text: string, ways: seq<Way>): seq<Unit>
    requires Spells(text, ways)
  {
    if text == "" then []
    else
      SpellsRest(text, ways);
      UnitsOf(text[0], ways[0]) + AllUnits(text[1..], ways[1..])
  }

  lemma FirstUnit(c: char, way: Way)
    requires Fits(c, way)
    ensures UnitsOf(c, way) != []
    ensures LowUnit(UnitsOf(c, way)[0]) ==> AloneBetween(way, 0xDC00, 0xE000)
  {
    hide IsHex4, Digits, Hex4;
    match way
    case Literal =>
    case Letter =>
    case CodePoint(cases) =>
      DigitsRead(c as int, cases);
    case Surrogates(high, low) =>
      DigitsRead(0xD800 + (c as int - 0x1_0000) / 0x400, high);
    case Alone(surrogate, cases) =>
      DigitsRead(surrogate, cases);
  }

  lemma NextIsNoLow(text: string, ways: seq<Way>)
    requires Spells(text, ways) && |text| > 1 && AloneBetween(ways[0], 0xD800, 0xDC00)
    ensures Spells(text[1..], ways[1..])
    ensures AllUnits(text[1..], ways[1..]) != [] && !LowUnit(AllUnits(text[1..], ways[1..])[0])
  {
    hide LowUnit, Fits;
    SpellsRest(text, ways);
    FirstUnit(text[1], ways[1]);
    assert !(AloneBetween(ways[1 - 1], 0xD800, 0xDC00) && AloneBetween(ways[1], 0xDC00, 0xE000));
  }

  lemma {:induction false} AllAreDecoded(text: string, ways: seq<Way>)
    requires Spells(text, ways)
    ensures AllLegal(AllUnits(text, ways)) && Body(AllUnits(text, ways)) == Written(text, ways)
    ensures Decoded(AllUnits(text, ways)) == text
    decreases |text|
  {
    if text != "" {
      hide Fits, UnitsOf, Write, Body, LowUnit;
      SpellsRest(text, ways);
      AllAreDecoded(text[1..], ways[1..]);
      var rest := AllUnits(text[1..], ways[1..]);
      if |text| > 1 && AloneBetween(ways[0], 0xD800, 0xDC00) {
        NextIsNoLow(text, ways);
      }
      UnitsAreWritten(text[0], ways[0]);
      WrittenIsDecoded(text[0], ways[0], rest);
      BodyAppend(UnitsOf(text[0], ways[0]), rest);
      HeadTail(text);
    }
  }

  // Whatever way a text is written, reading gives it back.
  lemma WrittenIsRead(text: string, ways: seq<Way>)
    requires Spells(text, ways)
    ensures Unquote(Written(text, ways)) == Some(text)
  {
    AllAreDecoded(text, ways);
    UnquoteBody(AllUnits(text, ways));
  }

  // ----- Whatever is read was written ----------------------------------------------------------------

  // The character that the units open with, and how it is written.
  function WayOf(us: seq<Unit>): Way
    requires AllLegal(us) && us != []
  {
    if OpensPair(us) then Surrogates(CasesOf(us[0].digits), CasesOf(us[1].digits))
    else
      match us[0]
      case Plain(_) => Literal
      case Short(_) => Letter
      case Hex(digits) =>
        if 0xD800 <= Hex4(digits) < 0xE000 then Alone(Hex4(digits), CasesOf(digits)) else CodePoint(CasesOf(digits))
  }

  lemma FirstIsWritten(us: seq<Unit>)
    requires AllLegal(us) && us != []
    ensures Decoded(us) != "" && Fits(Decoded(us)[0], WayOf(us))
    ensures UnitsOf(Decoded(us)[0], WayOf(us)) == us[..CharUnits(us)]
    ensures Decoded(us) == [Decoded(us)[0]] + Decoded(us[CharUnits(us)..])
  {
    assert LegalUnit(us[0]);
    if OpensPair(us) {
      PairIsWritten(us[0], us[1]);
    } else {
      UnitIsWritten(us[0], WayOf(us));
    }
  }

  lemma PairIsWritten(high: Unit, low: Unit)
    requires HighUnit(high) && LowUnit(low)
    ensures var c, way := PairValue(high, low), Surrogates(CasesOf(high.digits), CasesOf(low.digits));
            Fits(c, way) && UnitsOf(c, way) == [high, low]
  {
    hide Digits, IsHex4, Hex4;
    DigitsAreWritten(high.digits);
    DigitsAreWritten(low.digits);
  }

  lemma UnitIsWritten(u: Unit, way: Way)
    requires LegalUnit(u)
    requires match u
             case Plain(_) => way == Literal
             case Short(_) => way == Letter
             case Hex(digits) =>
               way == if 0xD800 <= Hex4(digits) < 0xE000 then Alone(Hex4(digits), CasesOf(digits))
                      else CodePoint(CasesOf(digits))
    ensures Fits(UnitValue(u), way) && UnitsOf(UnitValue(u), way) == [u]
  {
    hide Digits, IsHex4, Hex4;
    if u.Hex? {
      DigitsAreWritten(u.digits);
    }
  }

  lemma {:induction false} ReadIsWritten(us: seq<Unit>) returns (ways: seq<Way>)
    requires AllLegal(us)
    ensures Spells(Decoded(us), ways) && Written(Decoded(us), ways) == Body(us)
    ensures us != [] ==> ways != [] && ways[0] == WayOf(us)
    decreases |us|
  {
    ways := [];
    if us != [] {
      var n := CharUnits(us);
      var text, rest := Decoded(us), us[n..];
      var later := ReadIsWritten(rest);
      FirstIsWritten(us);
      ways := [WayOf(us)] + later;
      FirstJoins(us, later);
      assert ways[1..] == later && text[1..] == Decoded(rest);
      UnitsAreWritten(text[0], ways[0]);
      CutAt(us, n);
      BodyAppend(us[..n], rest);
    }
  }

  lemma FirstJoins(us: seq<Unit>, later: seq<Way>)
    requires AllLegal(us) && us != []
    requires var rest := us[CharUnits(us)..];
             && Spells(Decoded(rest), later)
             && (rest != [] ==> later != [] && later[0] == WayOf(rest))
             && Decoded(us) != "" && Fits(Decoded(us)[0], WayOf(us))
             && Decoded(us) == [Decoded(us)[0]] + Decoded(rest)
    ensures Spells(Decoded(us), [WayOf(us)] + later)
  {
    var rest, ways := us[CharUnits(us)..], [WayOf(us)] + later;
    var text := Decoded(us);
    hide Fits, Decoded;
    forall i | 0 <= i < |text| ensures Fits(text[i], ways[i]) {
      if i > 0 {
        assert text[i] == Decoded(rest)[i - 1] && ways[i] == later[i - 1];
      }
    }
    forall i | 0 < i < |text|
      ensures !(AloneBetween(ways[i - 1], 0xD800, 0xDC00) && AloneBetween(ways[i], 0xDC00, 0xE000))
    {
      if i > 1 {
        assert ways[i - 1] == later[i - 2] && ways[i] == later[i - 1];
      } else if rest != [] {
        assert LegalUnit(us[0]) && LegalUnit(us[1]);
      }
    }
  }

  // Reading a body gives a text if and only if the body is one of its spellings.
  lemma ReadExactlyWhatIsWritten(body: string, text: string)
    ensures Unquote(body) == Some(text) <==> exists ways: seq<Way> :: Spells(text, ways) && Written(text, ways) == body
  {
    if Unquote(body) == Some(text) {
      SplitIsLegal(body);
      var ways := ReadIsWritten(Split(body).value);
    }
    if ways: seq<Way> :| Spells(text, ways) && Written(text, ways) == body {
      WrittenIsRead(text, ways);
    }
  }
}
