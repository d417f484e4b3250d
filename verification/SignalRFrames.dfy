/** Records of the SignalR JSON encoding: text ended by 0x1E, cut anywhere into messages. Trimming
    a record and decoding it belong to the JSON library; the model takes any such functions. */
module SignalRFrames {
  import opened Options
  import opened Seqs
  import opened Utf8

  const DELIMITER: Byte := 0x1E
  const MAX_BUFFERED := 8 * 1024 * 1024

  // `trim` takes the white space off both ends; `decode` reads a JSON object, if the text is one.
  datatype Codec<Frame> = Codec(trim: Bytes -> Bytes, decode: Bytes -> Option<Frame>)

  // ----- A whole stream ----------------------------------------------------------------------------

  function RecordEnd(s: Bytes): nat {
    FirstIndex(s, DELIMITER, 0)
  }

  function Records(s: Bytes): seq<Bytes>
    decreases |s|
  {
    var n := RecordEnd(s);
    if n == |s| then [] else [s[..n]] + Records(s[n + 1..])
  }

  function Tail(s: Bytes): Bytes
    decreases |s|
  {
    var n := RecordEnd(s);
    if n == |s| then s else Tail(s[n + 1..])
  }

  predicate Blank<Frame>(c: Codec<Frame>, record: Bytes) {
    c.trim(record) == []
  }

  predicate Good<Frame>(c: Codec<Frame>, record: Bytes) {
    Blank(c, record) || c.decode(c.trim(record)).Some?
  }

  predicate AllGood<Frame>(c: Codec<Frame>, records: seq<Bytes>) {
    forall i :: 0 <= i < |records| ==> Good(c, records[i])
  }

  // The decoded records that are not blank, in order.
  function Frames<Frame>(c: Codec<Frame>, records: seq<Bytes>): seq<Frame>
    requires AllGood(c, records)
  {
    if records == [] then []
    else
      assert forall i :: 0 <= i < |records| - 1 ==> records[1..][i] == records[i + 1];
      (if Blank(c, records[0]) then [] else [c.decode(c.trim(records[0])).value]) + Frames(c, records[1..])
  }

  lemma {:induction false} TailHasNoDelimiter(s: Bytes)
    ensures RecordEnd(Tail(s)) == |Tail(s)| && |Tail(s)| <= |s| && DELIMITER !in Tail(s)
    decreases |s|
  {
    if RecordEnd(s) < |s| {
      TailHasNoDelimiter(s[RecordEnd(s) + 1..]);
    }
  }

  lemma Unfold(s: Bytes, n: nat)
    requires n == RecordEnd(s) < |s|
    ensures Records(s) == [s[..n]] + Records(s[n + 1..]) && Tail(s) == Tail(s[n + 1..])
  {
  }

  // Going on after `a` is going on from the record that `a` leaves open.
  lemma {:induction false} RecordsAppend(a: Bytes, b: Bytes)
    ensures Records(a + b) == Records(a) + Records(Tail(a) + b)
    ensures Tail(a + b) == Tail(Tail(a) + b)
    decreases |a|
  {
    var n := RecordEnd(a);
    if n == |a| {
      ConcatEmpty(Records(a + b));
    } else {
      var record, rest := a[..n], a[n + 1..];
      FirstIndexStays(a, b, DELIMITER);
      assert (a + b)[..n] == record && (a + b)[n + 1..] == rest + b;
      Unfold(a, n);
      Unfold(a + b, n);
      hide FirstIndex, Records, Tail;
      RecordsAppend(rest, b);
      ConcatAssociates([record], Records(rest), Records(Tail(rest) + b));
    }
  }

  lemma FramesStep<Frame>(c: Codec<Frame>, record: Bytes, rest: seq<Bytes>)
    ensures AllGood(c, [record] + rest) <==> Good(c, record) && AllGood(c, rest)
    ensures AllGood(c, [record] + rest) ==>
              Frames(c, [record] + rest)
              == (if Blank(c, record) then [] else [c.decode(c.trim(record)).value]) + Frames(c, rest)
  {
    var all := [record] + rest;
    assert all[0] == record && all[1..] == rest;
    if Good(c, record) && AllGood(c, rest) {
      forall i | 0 <= i < |all| ensures Good(c, all[i]) {
        assert i > 0 ==> all[i] == rest[i - 1];
      }
    }
    if AllGood(c, all) {
      forall i | 0 <= i < |rest| ensures Good(c, rest[i]) {
        assert rest[i] == all[i + 1];
      }
    }
  }

  lemma {:induction false} FramesAppend<Frame>(c: Codec<Frame>, a: seq<Bytes>, b: seq<Bytes>)
    ensures AllGood(c, a + b) <==> AllGood(c, a) && AllGood(c, b)
    ensures AllGood(c, a + b) ==> Frames(c, a + b) == Frames(c, a) + Frames(c, b)
    decreases |a|
  {
    if a == [] {
      ConcatEmpty(b);
    } else {
      hide Good, Blank, AllGood, Frames;
      HeadTail(a);
      FramesAppend(c, a[1..], b);
      ConcatAssociates([a[0]], a[1..], b);
      FramesStep(c, a[0], a[1..]);
      FramesStep(c, a[0], a[1..] + b);
      if AllGood(c, a + b) {
        var first := if Blank(c, a[0]) then [] else [c.decode(c.trim(a[0])).value];
        ConcatAssociates(first, Frames(c, a[1..]), Frames(c, b));
      }
    }
  }

  function Decoded<Frame>(c: Codec<Frame>, record: Bytes): seq<Frame>
    requires Good(c, record)
  {
    if Blank(c, record) then [] else [c.decode(c.trim(record)).value]
  }

  // Taking one record, or finding none.
  lemma OneRecord<Frame>(c: Codec<Frame>, s: Bytes)
    ensures var n := RecordEnd(s);
            if n >= |s| then AllGood(c, Records(s)) && Frames(c, Records(s)) == [] && Tail(s) == s
            else
              var record, rest := s[..n], s[n + 1..];
              && (AllGood(c, Records(s)) <==> Good(c, record) && AllGood(c, Records(rest)))
              && (AllGood(c, Records(s)) ==> Frames(c, Records(s)) == Decoded(c, record) + Frames(c, Records(rest)))
              && Tail(s) == Tail(rest)
  {
    var n := RecordEnd(s);
    if n < |s| {
      FramesStep(c, s[..n], Records(s[n + 1..]));
    }
  }

  // ----- The decoder -----------------------------------------------------------------------------------

  method IndexDelimiter(s: Bytes) returns (i: int)
    ensures i == if RecordEnd(s) == |s| then -1 else RecordEnd(s)
  {
    i := 0;
    while i < |s|
      invariant 0 <= i <= |s| && RecordEnd(s) == FirstIndex(s, DELIMITER, i)
    {
      if s[i] == DELIMITER {
        return;
      }
      i := i + 1;
    }
    return -1;
  }

  class FrameDecoder<Frame> {
    const codec: Codec<Frame>
    var buffer: Bytes

    constructor (codec: Codec<Frame>)
      ensures this.codec == codec && buffer == []
    {
      this.codec, buffer := codec, [];
    }

    // Fails exactly when the buffer would outgrow its limit or a complete record cannot be decoded;
    // otherwise returns the frames completed by the chunk and keeps the open record.
    method Feed(chunk: Bytes) returns (frames: Option<seq<Frame>>)
      modifies this`buffer
      ensures var all := old(buffer) + chunk;
              && (frames.Some? <==> |all| <= 8388608 && AllGood(codec, Records(all)))
              && (frames.Some? ==> frames.value == Frames(codec, Records(all)) && buffer == Tail(all))
              && (|all| > 8388608 ==> buffer == [])
    {
      hide Records, Tail, AllGood, Frames, FirstIndex;
      buffer := buffer + chunk;
      if |buffer| > MAX_BUFFERED {
        buffer := [];
        return None;
      }
      ghost var all := buffer;
      var done: seq<Frame> := [];
      if AllGood(codec, Records(all)) {
        ConcatEmpty(Frames(codec, Records(all)));
      }
      while true
        invariant AllGood(codec, Records(all)) <==> AllGood(codec, Records(buffer))
        invariant AllGood(codec, Records(all)) ==> Frames(codec, Records(all)) == done + Frames(codec, Records(buffer))
        invariant Tail(all) == Tail(buffer)
        decreases |buffer|
      {
        OneRecord(codec, buffer);
        var index := IndexDelimiter(buffer);
        if index < 0 {
          ConcatEmpty(done);
          break;
        }
        var record := buffer[..index];
        if Good(codec, record) && AllGood(codec, Records(buffer[index + 1..])) {
          ConcatAssociates(done, Decoded(codec, record), Frames(codec, Records(buffer[index + 1..])));
          ConcatEmpty(done);
        }
        buffer := buffer[index + 1..];
        var trimmed := codec.trim(record);
        if |trimmed| == 0 {
          continue;
        }
        var frame := codec.decode(trimmed);
        if frame.None? {
          return None;
        }
        done := done + [frame.value];
      }
      return Some(done);
    }
  }

  // ----- Chunks -----------------------------------------------------------------------------------------

  function BufferAfter(chunks: seq<Bytes>): Bytes {
    if chunks == [] then [] else Tail(BufferAfter(Init(chunks)) + Last(chunks))
  }

  // No call fails on the way.
  ghost predicate NoneFails<Frame>(c: Codec<Frame>, chunks: seq<Bytes>) {
    chunks == [] ||
    var all := BufferAfter(Init(chunks)) + Last(chunks);
    NoneFails(c, Init(chunks)) && |all| <= MAX_BUFFERED && AllGood(c, Records(all))
  }

  function Fed<Frame>(c: Codec<Frame>, chunks: seq<Bytes>): seq<Frame>
    requires NoneFails(c, chunks)
  {
    if chunks == [] then []
    else Fed(c, Init(chunks)) + Frames(c, Records(BufferAfter(Init(chunks)) + Last(chunks)))
  }

  // As long as no call fails, the frames are those of the whole stream, however it is cut, and the
  // buffer is its open record: free of delimiters and within the limit.
  lemma {:induction false} ChunkingDoesNotMatter<Frame>(c: Codec<Frame>, chunks: seq<Bytes>)
    requires NoneFails(c, chunks)
    ensures var s := Concat(chunks);
            && AllGood(c, Records(s)) && Fed(c, chunks) == Frames(c, Records(s))
            && BufferAfter(chunks) == Tail(s) && DELIMITER !in BufferAfter(chunks)
            && |BufferAfter(chunks)| <= MAX_BUFFERED
  {
    if chunks != [] {
      hide Frames, Records, Tail, AllGood;
      var before := Concat(Init(chunks));
      ConcatSnoc(chunks);
      ChunkingDoesNotMatter(c, Init(chunks));
      RecordsAppend(before, Last(chunks));
      FramesAppend(c, Records(before), Records(Tail(before) + Last(chunks)));
      TailHasNoDelimiter(Tail(before) + Last(chunks));
    }
  }

  // Whether a call fails does not depend on the cuts either, when the whole stream fits the buffer:
  // none fails exactly when every complete record is blank or can be decoded.
  lemma {:induction false} SmallStreamFailsOnlyOnBadRecords<Frame>(c: Codec<Frame>, chunks: seq<Bytes>)
    requires |Concat(chunks)| <= MAX_BUFFERED
    ensures NoneFails(c, chunks) <==> AllGood(c, Records(Concat(chunks)))
    ensures BufferAfter(chunks) == Tail(Concat(chunks))
  {
    if chunks != [] {
      hide Records, Tail, AllGood;
      var before := Concat(Init(chunks));
      ConcatSnoc(chunks);
      SmallStreamFailsOnlyOnBadRecords(c, Init(chunks));
      RecordsAppend(before, Last(chunks));
      TailHasNoDelimiter(before);
      FramesAppend(c, Records(before), Records(Tail(before) + Last(chunks)));
    }
  }

  // ----- Record by record ----------------------------------------------------------------------------------

  // The records of a stream, each ended by the delimiter.
  function Stream(records: seq<Bytes>): Bytes {
    if records == [] then [] else Stream(Init(records)) + (Last(records) + [0x1E])
  }

  predicate NoDelimiter(records: seq<Bytes>) {
    forall i :: 0 <= i < |records| ==> 0x1E !in records[i]
  }

  // Nothing but white space, or an object.
  predicate Readable<Frame>(c: Codec<Frame>, record: Bytes) {
    c.trim(record) == [] || c.decode(c.trim(record)).Some?
  }

  predicate AllReadable<Frame>(c: Codec<Frame>, records: seq<Bytes>) {
    forall i :: 0 <= i < |records| ==> Readable(c, records[i])
  }

  function Read<Frame>(c: Codec<Frame>, records: seq<Bytes>): seq<Frame> {
    if records == [] then []
    else
      var text := c.trim(Last(records));
      Read(c, Init(records)) + if text != [] && c.decode(text).Some? then [c.decode(text).value] else []
  }

  lemma OpenRecord(open: Bytes)
    requires 0x1E !in open
    ensures Records(open) == [] && Tail(open) == open
  {
    FirstIndexIs(open, 0x1E, 0, |open|);
  }

  lemma ClosedRecord(record: Bytes)
    requires 0x1E !in record
    ensures Records(record + [0x1E]) == [record] && Tail(record + [0x1E]) == []
  {
    var s := record + [0x1E];
    FirstIndexIs(s, 0x1E, 0, |record|);
    assert s[..|record|] == record && s[|record| + 1..] == [];
    Unfold(s, |record|);
    OpenRecord([]);
  }

  lemma {:induction false} StreamHasItsRecords(records: seq<Bytes>)
    requires NoDelimiter(records)
    ensures Records(Stream(records)) == records && Tail(Stream(records)) == []
    decreases |records|
  {
    if records == [] {
      OpenRecord([]);
    } else {
      hide FirstIndex, Records, Tail;
      StreamHasItsRecords(Init(records));
      RecordsAppend(Stream(Init(records)), Last(records) + [0x1E]);
      ConcatEmpty(Last(records) + [0x1E]);
      ClosedRecord(Last(records));
      InitLast(records);
    }
  }

  lemma {:induction false} FramesAreRead<Frame>(c: Codec<Frame>, records: seq<Bytes>)
    ensures AllGood(c, records) <==> AllReadable(c, records)
    ensures AllGood(c, records) ==> Frames(c, records) == Read(c, records)
    decreases |records|
  {
    if records != [] {
      var last := [Last(records)];
      InitLast(records);
      FramesAreRead(c, Init(records));
      FramesAppend(c, Init(records), last);
      FramesStep(c, Last(records), []);
      ConcatEmpty(last);
      hide Frames, AllGood;
      if AllGood(c, records) {
        ConcatEmpty(Decoded(c, Last(records)));
      }
    }
  }

  // A stream of records and an open one, within eight mebibytes: under every cutting no call fails
  // exactly when every record is white space or an object; then the frames are the objects in their
  // order and the buffer is the open record.
  lemma RecordsAreRead<Frame>(c: Codec<Frame>, records: seq<Bytes>, open: Bytes, chunks: seq<Bytes>)
    requires NoDelimiter(records) && 0x1E !in open
    requires Concat(chunks) == Stream(records) + open && |Concat(chunks)| <= 8388608
    ensures NoneFails(c, chunks) <==> AllReadable(c, records)
    ensures NoneFails(c, chunks) ==> Fed(c, chunks) == Read(c, records) && BufferAfter(chunks) == open
  {
    hide FirstIndex, Records, Tail, AllGood, Frames;
    StreamHasItsRecords(records);
    RecordsAppend(Stream(records), open);
    ConcatEmpty(open);
    OpenRecord(open);
    ConcatEmpty(records);
    SmallStreamFailsOnlyOnBadRecords(c, chunks);
    FramesAreRead(c, records);
    if NoneFails(c, chunks) {
      ChunkingDoesNotMatter(c, chunks);
    }
  }
}
