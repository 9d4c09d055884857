// Length-prefixed framing: a 4-byte big-endian length and that many body bytes.
module Framing {
  import opened Prelude
  import opened Wire

  const LENGTH_PREFIX_BYTES := 4

  function ReadUInt32BE(b: seq<byte>): nat
    requires |b| >= 4
  {
    (b[0] as int) * 0x100_0000 + (b[1] as int) * 0x1_0000 + (b[2] as int) * 0x100 + (b[3] as int)
  }

  function UInt32BE(n: nat): (b: seq<byte>)
    requires n < 0x1_0000_0000
    ensures |b| == 4 && ReadUInt32BE(b) == n
  {
    [n / 0x100_0000, n / 0x1_0000 % 0x100, n / 0x100 % 0x100, n % 0x100]
  }

  function EncodeFrame(body: seq<byte>): seq<byte>
    requires |body| < 0x1_0000_0000
  {
    UInt32BE(|body|) + body
  }

  // A frame value, or the marker of a body that does not parse.
  datatype Event<+V> = Value(v: V) | MalformedBody

  datatype Ending = CleanEnd | EofFault | OversizeFault

  datatype Decoded<+V> = Decoded(events: seq<Event<V>>, ending: Ending)

  function DecodeBody<V>(parse: seq<byte> -> Option<V>, body: seq<byte>): Event<V> {
    if parse(body).Some? then Value(parse(body).value) else MalformedBody
  }

  // The whole stream at once: what any reader of it has to yield.
  function Decode<V>(parse: seq<byte> -> Option<V>, bytes: seq<byte>): Decoded<V>
    decreases |bytes|
  {
    if bytes == [] then Decoded([], CleanEnd)
    else if |bytes| < LENGTH_PREFIX_BYTES then Decoded([], EofFault)
    else
      var length := ReadUInt32BE(bytes);
      if ExceedsBatchCap(length) then Decoded([], OversizeFault)
      else if |bytes| < LENGTH_PREFIX_BYTES + length then Decoded([], EofFault)
      else
        var rest := Decode(parse, bytes[LENGTH_PREFIX_BYTES + length..]);
        var event := DecodeBody(parse, bytes[LENGTH_PREFIX_BYTES..LENGTH_PREFIX_BYTES + length]);
        Decoded([event] + rest.events, rest.ending)
  }

  function Flatten<T>(chunks: seq<seq<T>>): seq<T> {
    if chunks == [] then [] else Flatten(chunks[..|chunks| - 1]) + chunks[|chunks| - 1]
  }

  // ---------------------------------------------------------------- the reader's drain

  // Whether the buffer starts with something the reader can act on.
  predicate HasFrame(buffer: seq<byte>) {
    |buffer| >= LENGTH_PREFIX_BYTES &&
    !ExceedsBatchCap(ReadUInt32BE(buffer)) && |buffer| >= LENGTH_PREFIX_BYTES + ReadUInt32BE(buffer)
  }

  predicate IsOversize(buffer: seq<byte>) {
    |buffer| >= LENGTH_PREFIX_BYTES && ExceedsBatchCap(ReadUInt32BE(buffer))
  }

  lemma PrefixStays(buffer: seq<byte>, more: seq<byte>)
    requires |buffer| >= LENGTH_PREFIX_BYTES
    ensures ReadUInt32BE(buffer + more) == ReadUInt32BE(buffer)
  {
  }

  // A complete frame in front decodes on its own, whatever follows.
  lemma DecodeFrameFirst<V>(parse: seq<byte> -> Option<V>, buffer: seq<byte>, more: seq<byte>)
    requires HasFrame(buffer)
    ensures var n := LENGTH_PREFIX_BYTES + ReadUInt32BE(buffer);
            Decode(parse, buffer + more) ==
              Decoded([DecodeBody(parse, buffer[LENGTH_PREFIX_BYTES..n])] + Decode(parse, buffer[n..] + more).events,
                      Decode(parse, buffer[n..] + more).ending)
  {
    var n := LENGTH_PREFIX_BYTES + ReadUInt32BE(buffer);
    PrefixStays(buffer, more);
    assert (buffer + more)[n..] == buffer[n..] + more;
    assert (buffer + more)[LENGTH_PREFIX_BYTES..n] == buffer[LENGTH_PREFIX_BYTES..n];
  }

  lemma DecodeOversizeFirst<V>(parse: seq<byte> -> Option<V>, buffer: seq<byte>, more: seq<byte>)
    requires IsOversize(buffer)
    ensures Decode(parse, buffer + more) == Decoded([], OversizeFault)
  {
    PrefixStays(buffer, more);
  }

  // ---------------------------------------------------------------- the codec's promises

  lemma EncodedFrame(body: seq<byte>, more: seq<byte>)
    requires |body| <= BATCH_CAP_BYTES
    ensures HasFrame(EncodeFrame(body) + more)
    ensures ReadUInt32BE(EncodeFrame(body) + more) == |body|
    ensures (EncodeFrame(body) + more)[LENGTH_PREFIX_BYTES..LENGTH_PREFIX_BYTES + |body|] == body
    ensures (EncodeFrame(body) + more)[LENGTH_PREFIX_BYTES + |body|..] == more
  {
    PrefixStays(UInt32BE(|body|), body + more);
    assert EncodeFrame(body) + more == UInt32BE(|body|) + (body + more);
  }

  // A frame yields exactly its body's event and leaves the stream aligned, parsed or not.
  lemma BodyNeverShiftsLaterFrames<V>(parse: seq<byte> -> Option<V>, body: seq<byte>, more: seq<byte>)
    requires |body| <= BATCH_CAP_BYTES
    ensures Decode(parse, EncodeFrame(body) + more) ==
            Decoded([DecodeBody(parse, body)] + Decode(parse, more).events, Decode(parse, more).ending)
  {
    EncodedFrame(body, more);
    DecodeFrameFirst(parse, EncodeFrame(body) + more, []);
    assert EncodeFrame(body) + more + [] == EncodeFrame(body) + more;
    assert more + [] == more;
  }

  function EncodeAll<V>(encode: V -> seq<byte>, values: seq<V>): seq<byte>
    requires forall i :: 0 <= i < |values| ==> |encode(values[i])| <= BATCH_CAP_BYTES
  {
    if values == [] then [] else EncodeFrame(encode(values[0])) + EncodeAll(encode, values[1..])
  }

  // Encoding any values and decoding the bytes gives the values back, and a clean end.
  lemma {:induction false} DecodeInvertsEncode<V>(parse: seq<byte> -> Option<V>, encode: V -> seq<byte>, values: seq<V>)
    requires forall i :: 0 <= i < |values| ==>
               |encode(values[i])| <= BATCH_CAP_BYTES && parse(encode(values[i])) == Some(values[i])
    ensures Decode(parse, EncodeAll(encode, values)) ==
            Decoded(seq(|values|, i requires 0 <= i < |values| => Value(values[i])), CleanEnd)
    decreases |values|
  {
    if values != [] {
      DecodeInvertsEncode(parse, encode, values[1..]);
      BodyNeverShiftsLaterFrames(parse, encode(values[0]), EncodeAll(encode, values[1..]));
    }
  }

  // The fault at the end of a stream that is not oversize: bytes are left over or not.
  function Leftover(bytes: seq<byte>): seq<byte>
    decreases |bytes|
  {
    if HasFrame(bytes) then Leftover(bytes[LENGTH_PREFIX_BYTES + ReadUInt32BE(bytes)..]) else bytes
  }

  lemma {:induction false} EofIffBytesLeftOver<V>(parse: seq<byte> -> Option<V>, bytes: seq<byte>)
    ensures Decode(parse, bytes).ending.EofFault? <==> Leftover(bytes) != [] && !IsOversize(Leftover(bytes))
    ensures Decode(parse, bytes).ending.OversizeFault? <==> IsOversize(Leftover(bytes))
    decreases |bytes|
  {
    if HasFrame(bytes) {
      EofIffBytesLeftOver(parse, bytes[LENGTH_PREFIX_BYTES + ReadUInt32BE(bytes)..]);
    }
  }
}

// The streaming reassembler over raw chunks.
module FrameReader {
  import opened Prelude
  import opened Wire
  import opened Framing

  class FrameReader<V(!new)> {
    const parse: seq<byte> -> Option<V>
    var buffer: seq<byte>

    constructor (parse: seq<byte> -> Option<V>)
      ensures this.parse == parse && buffer == []
    {
      this.parse := parse;
      buffer := [];
    }

    // Yields every complete frame of the buffer; `fatal` reports an oversize declaration.
    method DrainCompleteFrames() returns (events: seq<Event<V>>, fatal: bool)
      modifies this
      ensures fatal <==> IsOversize(buffer)
      ensures !HasFrame(buffer)
      ensures Yields(parse, old(buffer), events, buffer)
    {
      events := [];
      YieldsNothingYet(parse, buffer);
      while true
        invariant Yields(parse, old(buffer), events, buffer)
        decreases |buffer|
      {
        if |buffer| < LENGTH_PREFIX_BYTES { return events, false; }
        var bodyLength := ReadUInt32BE(buffer);
        if ExceedsBatchCap(bodyLength) { return events, true; }
        var frameLength := LENGTH_PREFIX_BYTES + bodyLength;
        if |buffer| < frameLength { return events, false; }
        YieldsFrame(parse, old(buffer), events, buffer);
        events := events + [DecodeBody(parse, buffer[LENGTH_PREFIX_BYTES..frameLength])];
        buffer := buffer[frameLength..];
      }
    }

    // Runs the reader over a whole stream cut into `chunks`: however it is cut, it yields
    // what the concatenated bytes decode to, and ends the same way.
    method Frames(chunks: seq<seq<byte>>) returns (events: seq<Event<V>>, ending: Ending)
      requires buffer == []
      modifies this
      ensures Decoded(events, ending) == Decode(parse, Flatten(chunks))
    {
      events := [];
      assert chunks[..0] == [];
      YieldsNothingYet(parse, buffer);
      for i := 0 to |chunks|
        invariant !HasFrame(buffer) && !IsOversize(buffer)
        invariant Yields(parse, Flatten(chunks[..i]), events, buffer)
      {
        ghost var before, sofar := buffer, events;
        buffer := buffer + chunks[i];
        var drained, fatal := DrainCompleteFrames();
        events := events + drained;
        assert chunks[..i + 1][..i] == chunks[..i];
        YieldsChunk(parse, Flatten(chunks[..i]), sofar, before, chunks[i], drained, buffer);
        if fatal {
          FlattenSplit(chunks, i + 1);
          YieldsOversize(parse, Flatten(chunks[..i + 1]), events, buffer, Flatten(chunks[i + 1..]));
          return events, OversizeFault;
        }
      }
      assert chunks[..|chunks|] == chunks;
      YieldsAtEnd(parse, Flatten(chunks), events, buffer);
      ending := if buffer == [] then CleanEnd else EofFault;
    }
  }

  // The reader has yielded `events` for `consumed` and keeps `buffer`: if `more` comes next,
  // the rest decodes from the buffer.
  ghost predicate YieldsOn<V(!new)>(parse: seq<byte> -> Option<V>, consumed: seq<byte>, events: seq<Event<V>>,
                                    buffer: seq<byte>, more: seq<byte>) {
    Decode(parse, consumed + more) ==
      Decoded(events + Decode(parse, buffer + more).events, Decode(parse, buffer + more).ending)
  }

  ghost predicate Yields<V(!new)>(
      parse: seq<byte> -> Option<V>, consumed: seq<byte>, events: seq<Event<V>>, buffer: seq<byte>)
  {
    forall more: seq<byte> :: YieldsOn(parse, consumed, events, buffer, more)
  }

  lemma YieldsNothingYet<V(!new)>(parse: seq<byte> -> Option<V>, buffer: seq<byte>)
    ensures Yields(parse, buffer, [], buffer)
  {
    forall more: seq<byte> ensures YieldsOn(parse, buffer, [], buffer, more) {
      assert [] + Decode(parse, buffer + more).events == Decode(parse, buffer + more).events;
    }
  }

  lemma YieldsFrame<V(!new)>(
      parse: seq<byte> -> Option<V>, consumed: seq<byte>, events: seq<Event<V>>, buffer: seq<byte>)
    requires Yields(parse, consumed, events, buffer) && HasFrame(buffer)
    ensures var n := LENGTH_PREFIX_BYTES + ReadUInt32BE(buffer);
            Yields(parse, consumed, events + [DecodeBody(parse, buffer[LENGTH_PREFIX_BYTES..n])], buffer[n..])
  {
    var n := LENGTH_PREFIX_BYTES + ReadUInt32BE(buffer);
    var event := DecodeBody(parse, buffer[LENGTH_PREFIX_BYTES..n]);
    forall more: seq<byte> ensures YieldsOn(parse, consumed, events + [event], buffer[n..], more) {
      assert YieldsOn(parse, consumed, events, buffer, more);
      DecodeFrameFirst(parse, buffer, more);
      var rest := Decode(parse, buffer[n..] + more).events;
      assert events + ([event] + rest) == events + [event] + rest;
    }
  }

  lemma YieldsChunk<V(!new)>(
      parse: seq<byte> -> Option<V>, consumed: seq<byte>, events: seq<Event<V>>, buffer: seq<byte>,
                             chunk: seq<byte>, drained: seq<Event<V>>, left: seq<byte>)
    requires Yields(parse, consumed, events, buffer) && Yields(parse, buffer + chunk, drained, left)
    ensures Yields(parse, consumed + chunk, events + drained, left)
  {
    forall more: seq<byte> ensures YieldsOn(parse, consumed + chunk, events + drained, left, more) {
      assert consumed + chunk + more == consumed + (chunk + more);
      assert buffer + chunk + more == buffer + (chunk + more);
      assert YieldsOn(parse, consumed, events, buffer, chunk + more);
      assert YieldsOn(parse, buffer + chunk, drained, left, more);
      var rest := Decode(parse, left + more).events;
      assert events + (drained + rest) == events + drained + rest;
    }
  }

  lemma YieldsOversize<V(!new)>(
      parse: seq<byte> -> Option<V>, consumed: seq<byte>, events: seq<Event<V>>, buffer: seq<byte>,
      more: seq<byte>)
    requires Yields(parse, consumed, events, buffer) && IsOversize(buffer)
    ensures Decode(parse, consumed + more) == Decoded(events, OversizeFault)
  {
    assert YieldsOn(parse, consumed, events, buffer, more);
    DecodeOversizeFirst(parse, buffer, more);
    assert events + [] == events;
  }

  lemma YieldsAtEnd<V(!new)>(
      parse: seq<byte> -> Option<V>, consumed: seq<byte>, events: seq<Event<V>>, buffer: seq<byte>)
    requires Yields(parse, consumed, events, buffer) && !HasFrame(buffer) && !IsOversize(buffer)
    ensures Decode(parse, consumed) == Decoded(events, if buffer == [] then CleanEnd else EofFault)
  {
    assert YieldsOn(parse, consumed, events, buffer, []);
    assert consumed + [] == consumed && buffer + [] == buffer && events + [] == events;
  }

  lemma {:induction false} FlattenSplit<T>(chunks: seq<seq<T>>, i: nat)
    requires i <= |chunks|
    ensures Flatten(chunks) == Flatten(chunks[..i]) + Flatten(chunks[i..])
    decreases |chunks| - i
  {
    if i == |chunks| {
      assert chunks[..i] == chunks && chunks[i..] == [];
    } else {
      FlattenSplit(chunks, i + 1);
      FlattenCons(chunks[i], chunks[i + 1..]);
      assert [chunks[i]] + chunks[i + 1..] == chunks[i..];
      assert chunks[..i + 1][..i] == chunks[..i];
    }
  }

  lemma {:induction false} FlattenCons<T>(first: seq<T>, chunks: seq<seq<T>>)
    ensures Flatten([first] + chunks) == first + Flatten(chunks)
    decreases |chunks|
  {
    if chunks == [] {
      assert [first] + chunks == [first] && [first][..0] == [];
    } else {
      var n := |chunks| - 1;
      assert ([first] + chunks)[..n + 1] == [first] + chunks[..n];
      FlattenCons(first, chunks[..n]);
    }
  }
}
