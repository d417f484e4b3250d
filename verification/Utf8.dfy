/** Lengths as the program counts them: in bytes of the UTF-8 encoding (RFC 3629, section 3). */
module Utf8 {
  import opened Seqs

  newtype Byte = b: int | 0 <= b < 256

  type Bytes = seq<Byte>

  function EncodeChar(c: char): (bytes: Bytes)
    ensures 1 <= |bytes| <= 4 && (|bytes| == 1 <==> c < '\U{0080}')
  {
    var u := c as int;
    if u < 0x80 then [u as Byte]
    else if u < 0x800 then [(0xC0 + u / 0x40) as Byte, (0x80 + u % 0x40) as Byte]
    else if u < 0x1_0000 then
      [(0xE0 + u / 0x1000) as Byte, (0x80 + u / 0x40 % 0x40) as Byte, (0x80 + u % 0x40) as Byte]
    else
      [(0xF0 + u / 0x4_0000) as Byte, (0x80 + u / 0x1000 % 0x40) as Byte,
       (0x80 + u / 0x40 % 0x40) as Byte, (0x80 + u % 0x40) as Byte]
  }

  // The code point that one to four bytes stand for (RFC 3629, section 3).
  function Point(bytes: Bytes): int
    requires bytes != []
  {
    match |bytes|
    case 1 => bytes[0] as int
    case 2 => 64 * (bytes[0] as int - 192) + (bytes[1] as int - 128)
    case 3 => 4096 * (bytes[0] as int - 224) + 64 * (bytes[1] as int - 128) + (bytes[2] as int - 128)
    case 4 =>
      262144 * (bytes[0] as int - 240) + 4096 * (bytes[1] as int - 128)
      + 64 * (bytes[2] as int - 128) + (bytes[3] as int - 128)
    case _ => -1
  }

  // A character is encoded in as few bytes as its code point needs; all but the first are
  // continuation bytes.
  lemma PointIsEncoded(c: char)
    ensures var bytes, u := EncodeChar(c), c as int;
            && Point(bytes) == u
            && |bytes| == (if u < 128 then 1 else if u < 2048 then 2 else if u < 65536 then 3 else 4)
            && forall i :: 1 <= i < |bytes| ==> 128 <= bytes[i] < 192
  {
    var u := c as int;
    assert u / 0x40 == u / 0x1000 * 0x40 + u / 0x40 % 0x40;
    assert u / 0x1000 == u / 0x4_0000 * 0x40 + u / 0x1000 % 0x40;
  }

  function Encode(text: string): Bytes {
    if text == "" then [] else EncodeChar(text[0]) + Encode(text[1..])
  }

  function Size(text: string): nat {
    |Encode(text)|
  }

  predicate Ascii(text: string) {
    forall i :: 0 <= i < |text| ==> text[i] < '\U{0080}'
  }

  lemma {:induction false} AsciiSize(text: string)
    requires Ascii(text)
    ensures Size(text) == |text|
    decreases |text|
  {
    if text != "" {
      hide EncodeChar;
      AsciiSize(text[1..]);
    }
  }

  lemma {:induction false} SizeOfConcat(a: string, b: string)
    ensures Size(a + b) == Size(a) + Size(b)
    decreases |a|
  {
    hide EncodeChar;
    if a == "" {
      ConcatEmpty(b);
    } else {
      SizeOfConcat(a[1..], b);
      TailOfConcat(a, b);
    }
  }

  lemma SizeOfOne(c: char)
    ensures Size([c]) == |EncodeChar(c)|
  {
    hide EncodeChar;
    var text := [c];
    assert text[0] == c && text[1..] == [];
    assert Encode(text) == EncodeChar(c) + Encode([]) == EncodeChar(c);
  }

  // The first place from which the rest of the text, up to `end`, has at most `most` bytes.
  function Within(text: string, end: nat, most: nat): (from: nat)
    requires end <= |text|
    ensures from <= end
    decreases end
  {
    if end == 0 || |EncodeChar(text[end - 1])| > most then end
    else Within(text, end - 1, most - |EncodeChar(text[end - 1])|)
  }

  lemma {:induction false} WithinExactly(text: string, from: nat, end: nat, most: nat)
    requires from <= end <= |text|
    ensures Within(text, end, most) <= from <==> Size(text[from..end]) <= most
    decreases end
  {
    hide EncodeChar;
    if from < end {
      var last := |EncodeChar(text[end - 1])|;
      assert text[from..end] == text[from..end - 1] + [text[end - 1]];
      SizeOfConcat(text[from..end - 1], [text[end - 1]]);
      SizeOfOne(text[end - 1]);
      if last <= most {
        WithinExactly(text, from, end - 1, most - last);
      }
    }
  }
}
