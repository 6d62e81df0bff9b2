/** Length-prefixed framing and its incremental decoders.

    The reference is a machine that eats one byte at a time.  The decoder class copies
    as many bytes at once as fit the prefix or the payload, and is proved to do the same.
    Serialization is a pair of functions of which only the round trip is assumed. */
module Framing {
  import opened Base
  import opened Handshakes
  import opened Inputs

  const PROTOCOL_MAJOR: nat := 2
  const MAX_CONTROL_FRAME_BYTES: nat := 16 * 1024
  const MAX_CRITICAL_FRAME_BYTES: nat := 4 * 1024
  const MAGIC: nat := 0x4D4B_5632        // "MKV2"
  const INPUT_MAGIC: nat := 0x4D4B_4932  // "MKI2"

  datatype Envelope<T> = Envelope(magic: nat, major: nat, frame: T)

  datatype Codec<!T(!new)> = Codec(magic: nat, limit: nat, check: T -> Option<ProtocolError>,
                                   serialize: Envelope<T> -> Option<seq<byte>>,
                                   deserialize: seq<byte> -> Option<Envelope<T>>)
  {
    predicate Sized() { 0 < limit < 0x1_0000_0000 }

    ghost predicate RoundTrips() {
      forall e: Envelope<T> :: serialize(e).Some? ==> deserialize(serialize(e).value) == Some(e)
    }

    function Encode(frame: T): Result<seq<byte>, ProtocolError> {
      if check(frame).Some? then Err(check(frame).value)
      else
        var payload := serialize(Envelope(magic, PROTOCOL_MAJOR, frame));
        if payload.None? then Err(Decode)
        else if |payload.value| == 0 || |payload.value| > limit then Err(FrameTooLarge(|payload.value|))
        else if |payload.value| >= 0x1_0000_0000 then Err(InvalidLength)
        else Ok(BigEndian(|payload.value|) + payload.value)
    }

    function DecodePayload(payload: seq<byte>): Result<T, ProtocolError> {
      var envelope := deserialize(payload);
      if envelope.None? then Err(Decode)
      else if envelope.value.magic != magic then Err(InvalidMagic)
      else if envelope.value.major != PROTOCOL_MAJOR then Err(UnsupportedMajor(envelope.value.major))
      else if check(envelope.value.frame).Some? then Err(check(envelope.value.frame).value)
      else Ok(envelope.value.frame)
    }
  }

  function ControlCodec(serialize: Envelope<ControlFrame> -> Option<seq<byte>>,
                        deserialize: seq<byte> -> Option<Envelope<ControlFrame>>): (codec: Codec<ControlFrame>)
    ensures codec.Sized()
  {
    Codec(MAGIC, MAX_CONTROL_FRAME_BYTES, CheckFrame, serialize, deserialize)
  }

  function CriticalCodec(serialize: Envelope<CriticalFrame> -> Option<seq<byte>>,
                         deserialize: seq<byte> -> Option<Envelope<CriticalFrame>>): (codec: Codec<CriticalFrame>)
    ensures codec.Sized()
  {
    Codec(INPUT_MAGIC, MAX_CRITICAL_FRAME_BYTES, CheckCritical, serialize, deserialize)
  }

  function BigEndian(n: nat): seq<byte>
    requires n < 0x1_0000_0000
  {
    [n / 0x100 / 0x100 / 0x100, n / 0x100 / 0x100 % 0x100, n / 0x100 % 0x100, n % 0x100]
  }

  function FromBigEndian(b: seq<byte>): nat
    requires |b| == 4
  {
    (b[0] as int) * 0x100_0000 + (b[1] as int) * 0x1_0000 + (b[2] as int) * 0x100 + b[3]
  }

  lemma BigEndianRoundTrip(n: nat)
    requires n < 0x1_0000_0000
    ensures FromBigEndian(BigEndian(n)) == n
  {
    var a := n / 0x100;
    var b := a / 0x100;
    assert n == a * 0x100 + n % 0x100 && a == b * 0x100 + a % 0x100 && b == b / 0x100 * 0x100 + b % 0x100;
  }

  // ----- the reference: one byte at a time

  datatype Phase = Header(prefix: seq<byte>) | Body(expected: nat, payload: seq<byte>) {
    predicate Full() { Body? && |payload| == expected }

    /** A full payload is kept only when it could not be decoded. */
    predicate Valid<T(!new)>(codec: Codec<T>) {
      match this
      case Header(prefix) => |prefix| < 4
      case Body(expected, payload) =>
        && 0 < expected <= codec.limit && |payload| <= expected
        && (|payload| == expected ==> codec.DecodePayload(payload).Err?)
    }
  }

  datatype Fed<T> = Fed(phase: Phase, frames: seq<T>, error: Option<ProtocolError>)

  function AfterPrefix<T(!new)>(codec: Codec<T>, prefix: seq<byte>): (Phase, Option<ProtocolError>)
    requires |prefix| == 4
  {
    var length := FromBigEndian(prefix);
    if length == 0 then (Header([]), Some(InvalidLength))
    else if length > codec.limit then (Header([]), Some(FrameTooLarge(length)))
    else (Body(length, []), None)
  }

  function FeedByte<T(!new)>(codec: Codec<T>, phase: Phase, b: byte): Fed<T>
    requires phase.Valid(codec) && !phase.Full()
  {
    match phase
    case Header(prefix) =>
      if |prefix| < 3 then Fed(Header(prefix + [b]), [], None)
      else
        var (next, error) := AfterPrefix(codec, prefix + [b]);
        Fed(next, [], error)
    case Body(expected, payload) =>
      if |payload| + 1 < expected then Fed(Body(expected, payload + [b]), [], None)
      else
        match codec.DecodePayload(payload + [b])
        case Ok(frame) => Fed(Header([]), [frame], None)
        case Err(error) => Fed(Body(expected, payload + [b]), [], Some(error))
  }

  /** Feeds bytes until they are used up or one of them completes something invalid. */
  function Feed<T(!new)>(codec: Codec<T>, phase: Phase, bytes: seq<byte>): (fed: Fed<T>)
    requires phase.Valid(codec)
    ensures fed.phase.Valid(codec)
    ensures fed.error.None? ==> !fed.phase.Full() || bytes == []
    decreases |bytes|
  {
    if bytes == [] then Fed(phase, [], None)
    else if phase.Full() then Fed(phase, [], Some(codec.DecodePayload(phase.payload).error))
    else
      var one := FeedByte(codec, phase, bytes[0]);
      if one.error.Some? then one
      else Then(one, Feed(codec, one.phase, bytes[1..]))
  }

  function Then<T>(first: Fed<T>, second: Fed<T>): Fed<T> {
    Fed(second.phase, first.frames + second.frames, second.error)
  }

  lemma FeedByteValid<T(!new)>(codec: Codec<T>, phase: Phase, b: byte)
    requires phase.Valid(codec) && !phase.Full()
    ensures FeedByte(codec, phase, b).phase.Valid(codec)
  {
  }

  lemma {:induction false} FeedAppend<T(!new)>(codec: Codec<T>, phase: Phase, a: seq<byte>, b: seq<byte>)
    requires phase.Valid(codec)
    ensures var first := Feed(codec, phase, a);
      Feed(codec, phase, a + b) == if first.error.Some? then first else Then(first, Feed(codec, first.phase, b))
    decreases |a|
  {
    hide FeedByte, Codec.DecodePayload, AfterPrefix;
    if a == [] {
      assert a + b == b;
      var rest := Feed(codec, phase, b);
      assert [] + rest.frames == rest.frames;
    } else if !phase.Full() {
      assert (a + b)[0] == a[0] && (a + b)[1..] == a[1..] + b;
      var one := FeedByte(codec, phase, a[0]);
      FeedByteValid(codec, phase, a[0]);
      if one.error.None? {
        FeedAppend(codec, one.phase, a[1..], b);
        var more := Feed(codec, one.phase, a[1..]);
        if more.error.None? {
          var rest := Feed(codec, more.phase, b);
          assert one.frames + (more.frames + rest.frames) == (one.frames + more.frames) + rest.frames;
        }
      }
    }
  }

  lemma FeedOne<T(!new)>(codec: Codec<T>, phase: Phase, b: byte)
    requires phase.Valid(codec) && !phase.Full()
    ensures Feed(codec, phase, [b]) == FeedByte(codec, phase, b)
  {
    var one := FeedByte(codec, phase, b);
    assert [b][1..] == [];
    if one.error.None? {
      assert one.frames + [] == one.frames;
      assert Feed(codec, one.phase, []) == Fed(one.phase, [], None);
    }
  }

  /** Bytes that complete nothing are simply kept. */
  lemma {:induction false} FeedKeeps<T(!new)>(codec: Codec<T>, phase: Phase, bytes: seq<byte>)
    requires phase.Valid(codec) && !phase.Full()
    requires phase.Header? ==> |phase.prefix| + |bytes| < 4
    requires phase.Body? ==> |phase.payload| + |bytes| < phase.expected
    ensures Feed(codec, phase, bytes)
         == Fed(if phase.Header? then Header(phase.prefix + bytes) else Body(phase.expected, phase.payload + bytes), [], None)
    decreases |bytes|, 0
  {
    hide Codec.DecodePayload, AfterPrefix;
    if bytes == [] {
      if phase.Header? { assert phase.prefix + bytes == phase.prefix; } else { assert phase.payload + bytes == phase.payload; }
    } else {
      var init, last := bytes[..|bytes| - 1], bytes[|bytes| - 1];
      assert bytes == init + [last];
      KeepsOneMore(codec, phase, init, last);
    }
  }

  lemma {:induction false} KeepsOneMore<T(!new)>(codec: Codec<T>, phase: Phase, init: seq<byte>, last: byte)
    requires phase.Valid(codec) && !phase.Full()
    requires phase.Header? ==> |phase.prefix| + |init| + 1 < 4
    requires phase.Body? ==> |phase.payload| + |init| + 1 < phase.expected
    ensures Feed(codec, phase, init + [last])
         == Fed(if phase.Header? then Header(phase.prefix + (init + [last]))
                else Body(phase.expected, phase.payload + (init + [last])), [], None)
    decreases |init|, 1
  {
    hide Codec.DecodePayload, AfterPrefix, Feed;
    FeedKeeps(codec, phase, init);
    FeedAppend(codec, phase, init, [last]);
    FeedOne(codec, Feed(codec, phase, init).phase, last);
    if phase.Header? { assert phase.prefix + init + [last] == phase.prefix + (init + [last]); }
    else { assert phase.payload + init + [last] == phase.payload + (init + [last]); }
  }

  /** The bytes that complete a prefix, taken together. */
  lemma FeedPrefix<T(!new)>(codec: Codec<T>, prefix: seq<byte>, bytes: seq<byte>)
    requires |prefix| < 4 && |prefix| + |bytes| == 4
    ensures var (next, error) := AfterPrefix(codec, prefix + bytes);
      Feed(codec, Header(prefix), bytes) == Fed(next, [], error)
  {
    var n := |bytes| - 1;
    var init, last := bytes[..n], bytes[n];
    assert bytes == init + [last] && prefix + bytes == prefix + init + [last];
    FeedKeeps(codec, Header(prefix), init);
    FeedAppend(codec, Header(prefix), init, [last]);
    FeedOne(codec, Header(prefix + init), last);
  }

  /** The bytes that complete a payload, taken together. */
  lemma FeedPayload<T(!new)>(codec: Codec<T>, expected: nat, payload: seq<byte>, bytes: seq<byte>)
    requires 0 < expected <= codec.limit && |payload| < expected && |payload| + |bytes| == expected
    ensures Feed(codec, Body(expected, payload), bytes) ==
      match codec.DecodePayload(payload + bytes)
      case Ok(frame) => Fed(Header([]), [frame], None)
      case Err(error) => Fed(Body(expected, payload + bytes), [], Some(error))
  {
    var n := |bytes| - 1;
    var init, last := bytes[..n], bytes[n];
    assert bytes == init + [last] && payload + bytes == payload + init + [last];
    FeedKeeps(codec, Body(expected, payload), init);
    FeedAppend(codec, Body(expected, payload), init, [last]);
    FeedOne(codec, Body(expected, payload + init), last);
  }

  /** What is known after `take` of the remaining bytes, when frames were decoded before. */
  lemma FeedSplit<T(!new)>(codec: Codec<T>, phase: Phase, frames: seq<T>, rest: seq<byte>, take: nat)
    requires phase.Valid(codec) && take <= |rest|
    ensures var first := Feed(codec, phase, rest[..take]);
      Then(Fed(phase, frames, None), Feed(codec, phase, rest)) ==
        if first.error.Some? then Fed(first.phase, frames + first.frames, first.error)
        else Then(Fed(first.phase, frames + first.frames, None), Feed(codec, first.phase, rest[take..]))
  {
    assert rest == rest[..take] + rest[take..];
    FeedAppend(codec, phase, rest[..take], rest[take..]);
    var first := Feed(codec, phase, rest[..take]);
    if first.error.None? {
      var second := Feed(codec, first.phase, rest[take..]);
      assert frames + (first.frames + second.frames) == (frames + first.frames) + second.frames;
    }
  }

  // ----- streams, cut into chunks

  function Concat(chunks: seq<seq<byte>>): seq<byte> {
    if chunks == [] then [] else chunks[0] + Concat(chunks[1..])
  }

  /** One push after the other, up to the first that fails; a failing push hands out nothing. */
  function PushAll<T(!new)>(codec: Codec<T>, phase: Phase, chunks: seq<seq<byte>>): Fed<T>
    requires phase.Valid(codec)
    decreases |chunks|
  {
    if chunks == [] then Fed(phase, [], None)
    else
      var one := Feed(codec, phase, chunks[0]);
      if one.error.Some? then Fed(one.phase, [], one.error)
      else Then(one, PushAll(codec, one.phase, chunks[1..]))
  }

  /** How a stream is cut into chunks never changes what is decoded, the error if there is
      one, or the state left behind; an error can only cost frames at the end. */
  lemma {:induction false} ChunkingIsIrrelevant<T(!new)>(codec: Codec<T>, phase: Phase, chunks: seq<seq<byte>>)
    requires phase.Valid(codec)
    ensures var whole := Feed(codec, phase, Concat(chunks));
      var pushed := PushAll(codec, phase, chunks);
      && pushed.error == whole.error && pushed.phase == whole.phase
      && pushed.frames <= whole.frames
      && (whole.error.None? ==> pushed == whole)
    decreases |chunks|
  {
    if chunks != [] {
      var one := Feed(codec, phase, chunks[0]);
      FeedAppend(codec, phase, chunks[0], Concat(chunks[1..]));
      if one.error.None? { ChunkingIsIrrelevant(codec, one.phase, chunks[1..]); }
    }
  }

  function EncodeAll<T(!new)>(codec: Codec<T>, frames: seq<T>): Result<seq<byte>, ProtocolError> {
    if frames == [] then Ok([])
    else
      var first := codec.Encode(frames[0]);
      if first.Err? then first
      else
        var rest := EncodeAll(codec, frames[1..]);
        if rest.Err? then rest else Ok(first.value + rest.value)
  }

  /** The prefix of an encoded frame opens a payload of the right size. */
  lemma FeedEncodedPrefix<T(!new)>(codec: Codec<T>, payload: seq<byte>)
    requires codec.Sized() && 0 < |payload| <= codec.limit
    ensures Feed(codec, Header([]), BigEndian(|payload|)) == Fed(Body(|payload|, []), [], None)
  {
    hide Feed;
    var prefix := BigEndian(|payload|);
    BigEndianRoundTrip(|payload|);
    assert [] + prefix == prefix;
    FeedPrefix(codec, [], prefix);
  }

  /** An encoded frame decodes to itself and leaves the decoder between frames. */
  lemma FeedEncoded<T(!new)>(codec: Codec<T>, frame: T, bytes: seq<byte>)
    requires codec.Sized() && codec.RoundTrips() && codec.Encode(frame) == Ok(bytes)
    ensures Feed(codec, Header([]), bytes) == Fed(Header([]), [frame], None)
  {
    hide Feed;
    var payload := codec.serialize(Envelope(codec.magic, PROTOCOL_MAJOR, frame)).value;
    FeedEncodedPrefix(codec, payload);
    assert [] + payload == payload;
    FeedPayload(codec, |payload|, [], payload);
    FeedAppend(codec, Header([]), BigEndian(|payload|), payload);
    assert codec.DecodePayload(payload) == Ok(frame);
  }

  /** A proper part of an encoded frame decodes to nothing and leaves the decoder inside it. */
  lemma FeedPartial<T(!new)>(codec: Codec<T>, frame: T, n: nat)
    requires codec.Sized() && codec.Encode(frame).Ok? && n < |codec.Encode(frame).value|
    ensures Unfinished(codec, codec.Encode(frame).value, n)
  {
    hide Feed;
    var payload := codec.serialize(Envelope(codec.magic, PROTOCOL_MAJOR, frame)).value;
    var prefix := BigEndian(|payload|);
    var bytes := prefix + payload;
    if n < 4 {
      assert bytes[..n] == prefix[..n] && [] + prefix[..n] == prefix[..n];
      FeedKeeps(codec, Header([]), prefix[..n]);
    } else {
      var part := payload[..n - 4];
      assert bytes[..n] == prefix + part;
      FeedEncodedPrefix(codec, payload);
      FeedAppend(codec, Header([]), prefix, part);
      FeedKeeps(codec, Body(|payload|, []), part);
    }
  }

  /** The first n bytes complete no frame; the stream may end there only if n is 0. */
  ghost predicate Unfinished<T(!new)>(codec: Codec<T>, bytes: seq<byte>, n: nat)
    requires n <= |bytes|
  {
    var fed := Feed(codec, Header([]), bytes[..n]);
    fed.frames == [] && fed.error.None? && (fed.phase == Header([]) <==> n == 0)
  }

  lemma {:induction false} FeedAllEncoded<T(!new)>(codec: Codec<T>, frames: seq<T>)
    requires codec.Sized() && codec.RoundTrips() && EncodeAll(codec, frames).Ok?
    ensures Feed(codec, Header([]), EncodeAll(codec, frames).value) == Fed(Header([]), frames, None)
    decreases |frames|
  {
    if frames != [] {
      var first, rest := codec.Encode(frames[0]).value, EncodeAll(codec, frames[1..]).value;
      FeedEncoded(codec, frames[0], first);
      FeedAllEncoded(codec, frames[1..]);
      FeedAppend(codec, Header([]), first, rest);
      assert [frames[0]] + frames[1..] == frames;
    }
  }

  /** The round trip: encoded frames followed by a proper part of one more, cut anywhere,
      decode to exactly those frames in order, and the decoder may finish exactly when
      nothing of a further frame has arrived. */
  lemma StreamRoundTrip<T(!new)>(codec: Codec<T>, frames: seq<T>, next: T, n: nat, chunks: seq<seq<byte>>)
    requires codec.Sized() && codec.RoundTrips()
    requires EncodeAll(codec, frames).Ok? && codec.Encode(next).Ok? && n < |codec.Encode(next).value|
    requires Concat(chunks) == EncodeAll(codec, frames).value + codec.Encode(next).value[..n]
    ensures var pushed := PushAll(codec, Header([]), chunks);
      && pushed.frames == frames && pushed.error.None?
      && (pushed.phase == Header([]) <==> n == 0)
  {
    FeedAllEncoded(codec, frames);
    FeedPartial(codec, next, n);
    FeedAppend(codec, Header([]), EncodeAll(codec, frames).value, codec.Encode(next).value[..n]);
    assert frames + [] == frames;
    ChunkingIsIrrelevant(codec, Header([]), chunks);
  }

  /** Control frames survive the control stream. */
  lemma ControlStreamRoundTrip(serialize: Envelope<ControlFrame> -> Option<seq<byte>>,
                               deserialize: seq<byte> -> Option<Envelope<ControlFrame>>,
                               frames: seq<ControlFrame>, next: ControlFrame, n: nat, chunks: seq<seq<byte>>)
    requires ControlCodec(serialize, deserialize).RoundTrips()
    requires var codec := ControlCodec(serialize, deserialize);
      && EncodeAll(codec, frames).Ok? && codec.Encode(next).Ok? && n < |codec.Encode(next).value|
      && Concat(chunks) == EncodeAll(codec, frames).value + codec.Encode(next).value[..n]
    ensures var pushed := PushAll(ControlCodec(serialize, deserialize), Header([]), chunks);
      pushed.frames == frames && pushed.error.None? && (pushed.phase == Header([]) <==> n == 0)
  {
    StreamRoundTrip(ControlCodec(serialize, deserialize), frames, next, n, chunks);
  }

  /** Critical input frames survive the input stream. */
  lemma CriticalStreamRoundTrip(serialize: Envelope<CriticalFrame> -> Option<seq<byte>>,
                                deserialize: seq<byte> -> Option<Envelope<CriticalFrame>>,
                                frames: seq<CriticalFrame>, next: CriticalFrame, n: nat, chunks: seq<seq<byte>>)
    requires CriticalCodec(serialize, deserialize).RoundTrips()
    requires var codec := CriticalCodec(serialize, deserialize);
      && EncodeAll(codec, frames).Ok? && codec.Encode(next).Ok? && n < |codec.Encode(next).value|
      && Concat(chunks) == EncodeAll(codec, frames).value + codec.Encode(next).value[..n]
    ensures var pushed := PushAll(CriticalCodec(serialize, deserialize), Header([]), chunks);
      pushed.frames == frames && pushed.error.None? && (pushed.phase == Header([]) <==> n == 0)
  {
    StreamRoundTrip(CriticalCodec(serialize, deserialize), frames, next, n, chunks);
  }

  /** After a payload that cannot be decoded the decoder is stuck: every further chunk
      fails the same way and changes nothing.  After a bad length it starts afresh. */
  lemma AfterAnError<T(!new)>(codec: Codec<T>, phase: Phase, bytes: seq<byte>, more: seq<byte>)
    requires phase.Valid(codec) && Feed(codec, phase, bytes).error.Some? && more != []
    ensures var fed := Feed(codec, phase, bytes);
      if fed.phase.Full() then
        fed.error == Some(codec.DecodePayload(fed.phase.payload).error)
        && Feed(codec, fed.phase, more) == Fed(fed.phase, [], fed.error)
      else fed.phase == Header([]) && (fed.error.value.InvalidLength? || fed.error.value.FrameTooLarge?)
  {
    ErrorShape(codec, phase, bytes);
  }

  lemma {:induction false} ErrorShape<T(!new)>(codec: Codec<T>, phase: Phase, bytes: seq<byte>)
    requires phase.Valid(codec) && Feed(codec, phase, bytes).error.Some?
    ensures var fed := Feed(codec, phase, bytes);
      if fed.phase.Full() then fed.error == Some(codec.DecodePayload(fed.phase.payload).error)
      else fed.phase == Header([]) && (fed.error.value.InvalidLength? || fed.error.value.FrameTooLarge?)
    decreases |bytes|
  {
    if !phase.Full() && FeedByte(codec, phase, bytes[0]).error.None? {
      ErrorShape(codec, FeedByte(codec, phase, bytes[0]).phase, bytes[1..]);
    }
  }

  /** A framed payload sticks in the decoder if and only if it cannot be decoded. */
  lemma SticksExactlyWhen<T(!new)>(codec: Codec<T>, payload: seq<byte>, more: seq<byte>)
    requires codec.Sized() && 0 < |payload| <= codec.limit && more != []
    ensures var fed := Feed(codec, Header([]), BigEndian(|payload|) + payload);
      && (fed.phase.Full() <==> codec.DecodePayload(payload).Err?)
      && (fed.phase.Full() ==> fed == Fed(Body(|payload|, payload), [], Some(codec.DecodePayload(payload).error))
                               && Feed(codec, fed.phase, more) == fed)
      && (!fed.phase.Full() ==> fed == Fed(Header([]), [codec.DecodePayload(payload).value], None))
  {
    hide Feed;
    FeedEncodedPrefix(codec, payload);
    assert [] + payload == payload;
    FeedPayload(codec, |payload|, [], payload);
    FeedAppend(codec, Header([]), BigEndian(|payload|), payload);
    var fed := Feed(codec, Header([]), BigEndian(|payload|) + payload);
    if fed.phase.Full() { AfterAnError(codec, Header([]), BigEndian(|payload|) + payload, more); }
  }

  /** Five bytes that stop a control stream for good, for any serialization that, like
      MessagePack, lets no value begin with 0xC1. */
  lemma ReservedByteSticks(serialize: Envelope<ControlFrame> -> Option<seq<byte>>,
                           deserialize: seq<byte> -> Option<Envelope<ControlFrame>>, more: seq<byte>)
    requires deserialize([0xC1]).None? && more != []
    ensures var codec := ControlCodec(serialize, deserialize);
      && Feed(codec, Header([]), [0, 0, 0, 1, 0xC1]) == Fed(Body(1, [0xC1]), [], Some(Decode))
      && Feed(codec, Body(1, [0xC1]), more) == Fed(Body(1, [0xC1]), [], Some(Decode))
  {
    var codec := ControlCodec(serialize, deserialize);
    SticksExactlyWhen(codec, [0xC1], more);
    assert BigEndian(1) + [0xC1] == [0, 0, 0, 1, 0xC1];
  }

  /** Whatever arrives, the buffer never holds more than one frame's worth of payload. */
  lemma BufferIsBounded<T(!new)>(codec: Codec<T>, chunks: seq<seq<byte>>)
    ensures var phase := PushAll(codec, Header([]), chunks).phase;
      phase.Body? ==> |phase.payload| <= phase.expected <= codec.limit
  {
    ChunkingIsIrrelevant(codec, Header([]), chunks);
  }

  // ----- the decoder

  class FrameDecoder<T(!new)> {
    const codec: Codec<T>
    const prefix: array<byte>
    var prefixLen: nat
    var expected: Option<nat>
    var payload: seq<byte>

    ghost predicate Valid()
      reads this, prefix
    {
      && codec.Sized() && prefix.Length == 4 && prefixLen <= 4
      && (expected.None? <==> prefixLen < 4)
      && Where().Valid(codec)
    }

    ghost function Where(): Phase
      requires prefix.Length == 4 && prefixLen <= 4
      reads this, prefix
    {
      if expected.None? then Header(prefix[..prefixLen]) else Body(expected.value, payload)
    }

    constructor (codec: Codec<T>)
      requires codec.Sized()
      ensures Valid() && fresh(prefix) && this.codec == codec && Where() == Header([])
    {
      this.codec := codec;
      prefix := new byte[4](_ => 0);
      prefixLen, expected, payload := 0, None, [];
    }

    /** Decodes what a chunk completes.  An error discards what the same call decoded. */
    method Push(bytes: seq<byte>) returns (decoded: Result<seq<T>, ProtocolError>)
      requires Valid()
      modifies this, prefix
      ensures Valid()
      ensures var fed := Feed(codec, old(Where()), bytes);
        && Where() == fed.phase
        && decoded == if fed.error.Some? then Err(fed.error.value) else Ok(fed.frames)
    {
      var rest, frames := bytes, [];
      ghost var whole := Feed(codec, Where(), bytes);
      assert [] + whole.frames == whole.frames;
      while rest != []
        invariant Valid()
        invariant whole == Then(Fed(Where(), frames, None), Feed(codec, Where(), rest))
        decreases |rest|
      {
        if expected.None? {
          ghost var before := Where();
          var taken, error := TakePrefix(rest);
          FeedSplit(codec, before, frames, rest, taken);
          assert frames + [] == frames;
          if error.Some? { return Err(error.value); }
          rest := rest[taken..];
          if expected.None? { continue; }
        }
        ghost var before := Where();
        var taken, frame := TakePayload(rest);
        FeedSplit(codec, before, frames, rest, taken);
        if frame.Some? && frame.value.Err? { return Err(frame.value.error); }
        rest := rest[taken..];
        frames := frames + if frame.Some? then [frame.value.value] else [];
      }
      decoded := Ok(frames);
      assert frames + [] == frames;
    }

    /** Fills the prefix; a complete one opens a payload or is refused. */
    method TakePrefix(bytes: seq<byte>) returns (taken: nat, error: Option<ProtocolError>)
      requires Valid() && expected.None? && bytes != []
      modifies this, prefix
      ensures Valid() && 0 < taken <= |bytes|
      ensures Feed(codec, old(Where()), bytes[..taken]) == Fed(Where(), [], error)
      ensures expected.None? && error.None? ==> taken == |bytes|
    {
      ghost var before := prefix[..prefixLen];
      taken := if 4 - prefixLen < |bytes| then 4 - prefixLen else |bytes|;
      error := None;
      Copy(bytes[..taken]);
      if prefixLen < 4 {
        FeedKeeps(codec, Header(before), bytes[..taken]);
        return;
      }
      FeedPrefix(codec, before, bytes[..taken]);
      assert prefix[..] == before + bytes[..taken];
      var length := FromBigEndian(prefix[..]);
      if length == 0 {
        Reset();
        return taken, Some(InvalidLength);
      }
      if length > codec.limit {
        Reset();
        return taken, Some(FrameTooLarge(length));
      }
      expected := Some(length);
      payload := [];
    }

    /** Extends the payload; a complete one is decoded, and kept if that fails. */
    method TakePayload(bytes: seq<byte>) returns (taken: nat, frame: Option<Result<T, ProtocolError>>)
      requires Valid() && expected.Some?
      modifies this
      ensures Valid() && taken <= |bytes|
      ensures bytes != [] && !old(Where()).Full() ==> taken > 0
      ensures if old(Where()).Full()
              then taken == 0 && Where() == old(Where()) && frame == Some(codec.DecodePayload(old(payload)))
              else Feed(codec, old(Where()), bytes[..taken]) ==
                   match frame
                   case None => Fed(Where(), [], None)
                   case Some(Ok(f)) => Fed(Where(), [f], None)
                   case Some(Err(e)) => Fed(Where(), [], Some(e))
    {
      var size := expected.value;
      taken := if size - |payload| < |bytes| then size - |payload| else |bytes|;
      if |payload| + taken < size {
        FeedKeeps(codec, Where(), bytes[..taken]);
      } else if |payload| < size {
        FeedPayload(codec, size, payload, bytes[..taken]);
      }
      ghost var before := payload;
      payload := payload + bytes[..taken];
      assert taken == 0 ==> payload == before;
      if |payload| < size { return taken, None; }
      var decoded := codec.DecodePayload(payload);
      frame := Some(decoded);
      if decoded.Ok? { Reset(); }
    }

    method Copy(bytes: seq<byte>)
      requires prefix.Length == 4 && prefixLen + |bytes| <= 4
      modifies this`prefixLen, prefix
      ensures prefixLen == old(prefixLen) + |bytes|
      ensures prefix[..prefixLen] == old(prefix[..prefixLen]) + bytes
    {
      forall i | 0 <= i < |bytes| { prefix[prefixLen + i] := bytes[i]; }
      prefixLen := prefixLen + |bytes|;
    }

    /** The stream may end here only between two frames. */
    method Finish() returns (error: Option<ProtocolError>)
      requires Valid()
      ensures error == if Where() == Header([]) then None else Some(Truncated)
    {
      error := if prefixLen == 0 && expected.None? then None else Some(Truncated);
    }

    method Reset()
      modifies this`prefixLen, this`expected, this`payload
      ensures prefixLen == 0 && expected == None && payload == []
    {
      prefixLen, expected, payload := 0, None, [];
    }
  }
}
