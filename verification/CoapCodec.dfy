/** The CoAP message codec of the interoperability suite (sections 3 and 3.1 of RFC 7252). */
module CoapCodec {
  import opened Runtime
  import opened Ordering

  const MARKER: Byte := 255
  const OPT_URI_PATH: int := 11
  const OPT_CONTENT_FORMAT: int := 12

  datatype CoapOption = CoapOption(number: int, value: seq<Byte>)

  datatype Message = Message(kind: int, code: int, mid: int, token: seq<Byte>, options: seq<CoapOption>, payload: seq<Byte>)

  /** The exceptions the decoder raises. */
  datatype Fault = Short | Reserved | Truncated

  /** Nibble and extension bytes, unless the number is too large for them. */
  datatype Extended = Extended(nibble: int, extra: seq<Byte>) | TooLarge

  /** A number read back and the bytes after it. */
  datatype Reading = Read(value: nat, rest: seq<Byte>) | Unreadable(fault: Fault)

  /** Encoded bytes, unless a field did not fit. */
  datatype Encoded = Bytes(bytes: seq<Byte>) | OutOfRange

  datatype OptionRead = OptionRead(option: CoapOption, rest: seq<Byte>) | BadOption(fault: Fault)

  datatype Tail = Tail(options: seq<CoapOption>, payload: seq<Byte>) | BadTail(fault: Fault)

  datatype Decoded = Decoded(message: Message) | Rejected(fault: Fault)

  // ---------------------------------------------------------------- bits and bytes

  /** Bitwise or of non-negative integers. */
  function BitOr(a: nat, b: nat): nat {
    if a == 0 then b
    else if b == 0 then a
    else (if a % 2 == 1 || b % 2 == 1 then 1 else 0) + 2 * BitOr(a / 2, b / 2)
  }

  function Pow2(k: nat): nat {
    if k == 0 then 1 else 2 * Pow2(k - 1)
  }

  /** The low `k` bits are clear. */
  predicate Aligned(y: nat, k: nat) {
    k == 0 || (y % 2 == 0 && Aligned(y / 2, k - 1))
  }

  /** Or-ing into clear low bits adds. */
  lemma {:induction false} OrAligned(y: nat, n: nat, k: nat)
    requires Aligned(y, k) && n < Pow2(k)
    ensures BitOr(y, n) == y + n
  {
    if k != 0 && y != 0 && n != 0 {
      OrAligned(y / 2, n / 2, k - 1);
    }
  }

  lemma {:induction false} NibbleAligned(x: nat)
    ensures Aligned(16 * x, 4)
  {
    assert Aligned(2 * x, 1);
    assert 4 * x / 2 == 2 * x && Aligned(4 * x, 2);
    assert 8 * x / 2 == 4 * x && Aligned(8 * x, 3);
    assert 16 * x / 2 == 8 * x;
  }

  lemma {:induction false} OrNibble(x: nat, n: nat)
    requires n < 16
    ensures BitOr(16 * x, n) == 16 * x + n
  {
    NibbleAligned(x);
    OrAligned(16 * x, n, 4);
  }

  lemma {:induction false} OrAtLeast(a: nat, b: nat)
    ensures BitOr(a, b) >= a && BitOr(a, b) >= b
  {
    if a != 0 && b != 0 {
      OrAtLeast(a / 2, b / 2);
    }
  }

  lemma {:induction false} OrBelow(a: nat, b: nat, k: nat)
    requires a < Pow2(k) && b < Pow2(k)
    ensures BitOr(a, b) < Pow2(k)
  {
    if a != 0 && b != 0 {
      OrBelow(a / 2, b / 2, k - 1);
    }
  }

  function Wide(high: Byte, low: Byte): nat {
    256 * (high as int) + low as int
  }

  /** Two bytes, most significant first. */
  function Half(v: int): (r: seq<Byte>)
    requires 0 <= v < 65536
    ensures |r| == 2 && Wide(r[0], r[1]) == v
  {
    [v / 256, v % 256]
  }

  /** Python's slices: they stop at the end of the data. */
  function Take(s: seq<Byte>, n: nat): seq<Byte> {
    if n <= |s| then s[..n] else s
  }

  function Drop(s: seq<Byte>, n: nat): seq<Byte> {
    if n <= |s| then s[n..] else []
  }

  // ---------------------------------------------------------------- option lengths and deltas

  const EXT_LIMIT: int := 269 + 65536

  /** Nibble and extension bytes of an option delta or length. */
  function Ext(value: int): (r: Extended)
    ensures r.Extended? <==> value < EXT_LIMIT
    ensures r.Extended? && value >= 0 ==> 0 <= r.nibble <= 14
  {
    if value < 13 then Extended(value, [])
    else if value < 269 then Extended(13, [value - 13])
    else if value < EXT_LIMIT then Extended(14, Half(value - 269))
    else TooLarge
  }

  /** Reads a delta or length back: its value and the bytes after it. */
  function ReadExt(nibble: nat, body: seq<Byte>): (r: Reading)
    ensures r.Read? ==> |r.rest| <= |body|
  {
    if nibble < 13 then Read(nibble, body)
    else if nibble == 13 then
      if body == [] then Unreadable(Truncated) else Read(13 + body[0] as int, body[1..])
    else if nibble == 14 then
      if |body| < 2 then Unreadable(Truncated) else Read(269 + Wide(body[0], body[1]), body[2..])
    else Unreadable(Reserved)
  }

  /** `ReadExt` and, below, `ReadOption` and `DecodeTail` give these results. Stated so that the
      functions unfold only where they are named. */
  ghost predicate ReadsExt(nibble: nat, body: seq<Byte>, r: Reading) {
    forall n: nat :: n == nibble ==> ReadExt(n, body) == r
  }

  lemma {:induction false} ExtRoundTrip(value: nat, tail: seq<Byte>)
    requires Ext(value).Extended?
    ensures ReadsExt(Ext(value).nibble, Ext(value).extra + tail, Read(value, tail))
  {
  }

  // ---------------------------------------------------------------- encoding

  /** One option: header byte, extensions, value. The two nibbles do not overlap, so or-ing them into the
      header adds them (`OrNibble`). */
  function EncodeOption(delta: int, value: seq<Byte>): (r: Encoded)
    ensures r.Bytes? <==> 0 <= delta < EXT_LIMIT && |value| < EXT_LIMIT
  {
    var d, l := Ext(delta), Ext(|value|);
    if d.TooLarge? || l.TooLarge? || delta < 0 then OutOfRange
    else Bytes([16 * d.nibble + l.nibble] + d.extra + l.extra + value)
  }

  function Prepend(before: seq<Byte>, r: Encoded): Encoded {
    if r.Bytes? then Bytes(before + r.bytes) else r
  }

  /** Options in the given order, each number relative to the one before. */
  function EncodeOptions(prev: int, options: seq<CoapOption>): Encoded
    decreases |options|
  {
    if options == [] then Bytes([])
    else
      var first := EncodeOption(options[0].number - prev, options[0].value);
      if first.OutOfRange? then first
      else Prepend(first.bytes, EncodeOptions(options[0].number, options[1..]))
  }

  predicate NumberLeq(a: CoapOption, b: CoapOption) {
    a.number <= b.number
  }

  function Marked(payload: seq<Byte>): seq<Byte> {
    if payload == [] then [] else [MARKER] + payload
  }

  /** Version, type and token length in one byte. */
  function FirstByte(kind: int, tokenLength: nat): nat {
    BitOr(BitOr(64, 16 * (kind % 4)), tokenLength)
  }

  /** Header, message id and token before the options, the payload after them. */
  function Framed(first: nat, code: int, mid: int, token: seq<Byte>, body: Encoded, payload: seq<Byte>): Encoded {
    if first >= 256 || !(0 <= code < 256) || !(0 <= mid < 65536) then OutOfRange
    else Prepend([first, code] + Half(mid) + token, Append(body, Marked(payload)))
  }

  function Append(r: Encoded, after: seq<Byte>): Encoded {
    if r.Bytes? then Bytes(r.bytes + after) else r
  }

  /** The datagram of a message. */
  function Encode(m: Message): Encoded {
    Framed(FirstByte(m.kind, |m.token|), m.code, m.mid, m.token, EncodeOptions(0, Sort(NumberLeq, m.options)), m.payload)
  }

  lemma {:induction false} PrependNothing(r: Encoded)
    ensures Prepend([], r) == r
  {
  }

  /** `EncodeOption` gives `one`, unfolded only where it is named. */
  ghost predicate EncodesOption(delta: int, value: seq<Byte>, one: Encoded) {
    forall d :: d == delta ==> EncodeOption(d, value) == one
  }

  lemma {:induction false} WriteStep(options: seq<CoapOption>, i: nat, prev: int, out: seq<Byte>, one: Encoded)
    requires i < |options| && EncodesOption(options[i].number - prev, options[i].value, one)
    ensures one.OutOfRange? ==> Prepend(out, EncodeOptions(prev, options[i..])).OutOfRange?
    ensures one.Bytes? ==>
      Prepend(out, EncodeOptions(prev, options[i..])) == Prepend(out + one.bytes, EncodeOptions(options[i].number, options[i + 1..]))
  {
  }

  /** Writes the options one after the other. */
  method WriteOptions(options: seq<CoapOption>) returns (r: Encoded)
    ensures r == EncodeOptions(0, options)
  {
    var out, prev := [], 0;
    assert options[0..] == options;
    PrependNothing(EncodeOptions(0, options));
    for i := 0 to |options|
      invariant EncodeOptions(0, options) == Prepend(out, EncodeOptions(prev, options[i..]))
    {
      var one := EncodeOption(options[i].number - prev, options[i].value);
      WriteStep(options, i, prev, out, one);
      if one.OutOfRange? {
        return OutOfRange;
      }
      out, prev := out + one.bytes, options[i].number;
    }
    assert out + [] == out;
    return Bytes(out);
  }

  /** Builds the datagram in one buffer. */
  method EncodeMessage(m: Message) returns (r: Encoded)
    ensures r == Encode(m)
  {
    var body := WriteOptions(Sort(NumberLeq, m.options));
    r := WriteFrame(FirstByte(m.kind, |m.token|), m.code, m.mid, m.token, body, m.payload);
  }

  method WriteFrame(first: nat, code: int, mid: int, token: seq<Byte>, body: Encoded, payload: seq<Byte>) returns (r: Encoded)
    ensures r == Framed(first, code, mid, token, body, payload)
  {
    if first >= 256 || !(0 <= code < 256) || !(0 <= mid < 65536) || body.OutOfRange? {
      return OutOfRange;
    }
    var out: seq<Byte> := [first, code];
    out := out + Half(mid);
    out := out + token;
    ghost var start := out;
    out := out + body.bytes;
    if payload != [] {
      out := out + [MARKER];
      out := out + payload;
    }
    assert out == start + (body.bytes + Marked(payload));
    return Bytes(out);
  }

  // ---------------------------------------------------------------- decoding

  /** Reads one option: it and the bytes after it. */
  function ReadOption(prev: int, rest: seq<Byte>): (r: OptionRead)
    requires rest != []
    ensures r.OptionRead? ==> |r.rest| < |rest|
  {
    var delta := ReadExt(rest[0] / 16, rest[1..]);
    if delta.Unreadable? then BadOption(delta.fault)
    else
      var length := ReadExt(rest[0] % 16, delta.rest);
      if length.Unreadable? then BadOption(length.fault)
      else OptionRead(CoapOption(prev + delta.value, Take(length.rest, length.value)), Drop(length.rest, length.value))
  }

  ghost predicate ReadsOption(prev: int, body: seq<Byte>, r: OptionRead) {
    body != [] && forall p :: p == prev ==> ReadOption(p, body) == r
  }

  lemma {:induction false} OptionFromParts(prev: int, rest: seq<Byte>, delta: Reading, length: Reading)
    requires rest != [] && ReadsExt(rest[0] / 16, rest[1..], delta)
    requires delta.Read? ==> ReadsExt(rest[0] % 16, delta.rest, length)
    ensures delta.Unreadable? ==> ReadsOption(prev, rest, BadOption(delta.fault))
    ensures delta.Read? && length.Unreadable? ==> ReadsOption(prev, rest, BadOption(length.fault))
    ensures delta.Read? && length.Read? ==>
      ReadsOption(prev, rest, OptionRead(CoapOption(prev + delta.value, Take(length.rest, length.value)), Drop(length.rest, length.value)))
  {
  }

  /** Options and payload from the bytes after the token. */
  function DecodeTail(prev: int, rest: seq<Byte>): Tail
    decreases |rest|
  {
    if rest == [] then Tail([], [])
    else if rest[0] == MARKER then Tail([], rest[1..])
    else
      var one := ReadOption(prev, rest);
      if one.BadOption? then BadTail(one.fault)
      else PrependOption([one.option], DecodeTail(one.option.number, one.rest))
  }

  function PrependOption(before: seq<CoapOption>, r: Tail): Tail {
    if r.Tail? then Tail(before + r.options, r.payload) else r
  }

  function TokenLength(data: seq<Byte>): nat
    requires |data| >= 4
  {
    data[0] % 16
  }

  /** The fixed fields and the token, with options and payload given. */
  function Assemble(data: seq<Byte>, options: seq<CoapOption>, payload: seq<Byte>): Message
    requires |data| >= 4
  {
    Message(data[0] / 16 % 4, data[1], Wide(data[2], data[3]), Take(data[4..], TokenLength(data)), options, payload)
  }

  function Decode(data: seq<Byte>): Decoded {
    if |data| < 4 then Rejected(Short)
    else
      var tail := DecodeTail(0, Drop(data, 4 + TokenLength(data)));
      if tail.BadTail? then Rejected(tail.fault) else Decoded(Assemble(data, tail.options, tail.payload))
  }

  lemma {:induction false} PrependOptionTwice(a: seq<CoapOption>, b: seq<CoapOption>, r: Tail)
    ensures PrependOption(a, PrependOption(b, r)) == PrependOption(a + b, r)
  {
  }

  /** Reads a delta or length at an offset and moves the offset past it. */
  method ReadExtAt(nibble: nat, data: seq<Byte>, offset: nat) returns (r: Reading, next: nat)
    ensures ReadsExt(nibble, Drop(data, offset), r) && next >= offset
    ensures r.Read? ==> r.rest == Drop(data, next)
  {
    next := offset;
    if nibble < 13 {
      r := Read(nibble, Drop(data, offset));
    } else if nibble == 13 {
      if offset >= |data| {
        return Unreadable(Truncated), offset;
      }
      next := offset + 1;
      r := Read(13 + data[offset] as int, Drop(data, next));
    } else if nibble == 14 {
      if offset + 2 > |data| {
        return Unreadable(Truncated), offset;
      }
      next := offset + 2;
      r := Read(269 + Wide(data[offset], data[offset + 1]), Drop(data, next));
    } else {
      r := Unreadable(Reserved);
    }
  }

  lemma {:induction false} DropTwice(s: seq<Byte>, a: nat, b: nat)
    ensures Drop(Drop(s, a), b) == Drop(s, a + b)
  {
  }

  lemma {:induction false} PrependNoOption(r: Tail)
    ensures PrependOption([], r) == r
  {
  }

  /** Reads one option at an offset and moves the offset past it, possibly past the end of the data. */
  method ReadOptionAt(prev: int, data: seq<Byte>, offset: nat) returns (r: OptionRead, next: nat)
    requires offset < |data|
    ensures ReadsOption(prev, data[offset..], r) && next > offset
    ensures r.OptionRead? ==> r.rest == Drop(data, next)
  {
    var header := data[offset];
    assert data[offset..][1..] == Drop(data, offset + 1);
    var delta, length;
    delta, next := ReadExtAt(header / 16, data, offset + 1);
    if delta.Unreadable? {
      OptionFromParts(prev, data[offset..], delta, delta);
      return BadOption(delta.fault), next;
    }
    length, next := ReadExtAt(header % 16, data, next);
    OptionFromParts(prev, data[offset..], delta, length);
    if length.Unreadable? {
      return BadOption(length.fault), next;
    }
    DropTwice(data, next, length.value);
    var value := Take(Drop(data, next), length.value);
    next := next + length.value;
    r := OptionRead(CoapOption(prev + delta.value, value), Drop(data, next));
  }

  /** Walks the datagram with an offset that may run past its end. */
  method DecodeMessage(data: seq<Byte>) returns (r: Decoded)
    ensures r == Decode(data)
  {
    if |data| < 4 {
      return Rejected(Short);
    }
    var tail := ReadTail(data, 4 + TokenLength(data));
    if tail.BadTail? {
      return Rejected(tail.fault);
    }
    return Decoded(Assemble(data, tail.options, tail.payload));
  }

  method ReadTail(data: seq<Byte>, start: nat) returns (r: Tail)
    ensures r == DecodeTail(0, Drop(data, start))
  {
    var offset, prev, options := start, 0, [];
    PrependNoOption(DecodeTail(0, Drop(data, start)));
    while offset < |data|
      invariant DecodeTail(0, Drop(data, start)) == PrependOption(options, DecodeTail(prev, Drop(data, offset)))
      decreases |data| - offset
    {
      if data[offset] == MARKER {
        assert data[offset..][1..] == data[offset + 1..];
        assert options + [] == options;
        return Tail(options, data[offset + 1..]);
      }
      var one, next := ReadOptionAt(prev, data, offset);
      assert one == ReadOption(prev, Drop(data, offset));
      if one.BadOption? {
        return BadTail(one.fault);
      }
      PrependOptionTwice(options, [one.option], DecodeTail(one.option.number, Drop(data, next)));
      offset, options, prev := next, options + [one.option], one.option.number;
    }
    assert options + [] == options;
    return Tail(options, []);
  }

  // ---------------------------------------------------------------- round trip

  /** An option header is never the payload marker. */
  lemma {:induction false} HeaderIsNotMarker(delta: int, value: seq<Byte>)
    requires EncodeOption(delta, value).Bytes?
    ensures EncodeOption(delta, value).bytes != [] && EncodeOption(delta, value).bytes[0] != MARKER
  {
  }

  lemma {:induction false} SplitParts(h: Byte, a: seq<Byte>, b: seq<Byte>, c: seq<Byte>, t: seq<Byte>)
    ensures [h] + a + b + c + t == [h] + (a + (b + (c + t)))
  {
  }

  lemma {:induction false} TakeDrop(value: seq<Byte>, tail: seq<Byte>)
    ensures Take(value + tail, |value|) == value && Drop(value + tail, |value|) == tail
  {
  }

  lemma {:induction false} Regroup<T>(a: seq<T>, b: seq<T>, c: seq<T>)
    ensures a + b + c == a + (b + c)
  {
  }

  lemma {:induction false} ReadParts(prev: int, delta: nat, d: Extended, l: Extended, value: seq<Byte>, tail: seq<Byte>)
    requires d.Extended? && l.Extended? && 0 <= d.nibble < 15 && 0 <= l.nibble < 15
    requires ReadsExt(d.nibble, d.extra + (l.extra + (value + tail)), Read(delta, l.extra + (value + tail)))
    requires ReadsExt(l.nibble, l.extra + (value + tail), Read(|value|, value + tail))
    ensures ReadsOption(prev, [16 * d.nibble + l.nibble] + d.extra + l.extra + value + tail,
                        OptionRead(CoapOption(prev + delta, value), tail))
  {
    var header: Byte := 16 * d.nibble + l.nibble;
    assert header / 16 == d.nibble && header % 16 == l.nibble;
    SplitParts(header, d.extra, l.extra, value, tail);
    var body := d.extra + (l.extra + (value + tail));
    assert ([header] + body)[1..] == body;
    OptionFromParts(prev, [header] + body, Read(delta, l.extra + (value + tail)), Read(|value|, value + tail));
    TakeDrop(value, tail);
  }

  /** Reading an encoded option gives it back and leaves what follows. */
  lemma {:induction false} OptionRoundTrip(prev: int, o: CoapOption, tail: seq<Byte>)
    requires EncodeOption(o.number - prev, o.value).Bytes?
    ensures ReadsOption(prev, EncodeOption(o.number - prev, o.value).bytes + tail, OptionRead(o, tail))
  {
    var delta := o.number - prev;
    var d, l := Ext(delta), Ext(|o.value|);
    ExtRoundTrip(delta, l.extra + (o.value + tail));
    ExtRoundTrip(|o.value|, o.value + tail);
    ReadParts(prev, delta, d, l, o.value, tail);
  }

  ghost predicate Decodes(prev: int, rest: seq<Byte>, options: seq<CoapOption>, payload: seq<Byte>) {
    forall p :: p == prev ==> DecodeTail(p, rest) == Tail(options, payload)
  }

  lemma {:induction false} TailStep(prev: int, o: CoapOption, first: seq<Byte>, tail: seq<Byte>, options: seq<CoapOption>, payload: seq<Byte>)
    requires first != [] && first[0] != MARKER && ReadsOption(prev, first + tail, OptionRead(o, tail))
    requires Decodes(o.number, tail, options, payload)
    ensures Decodes(prev, first + tail, [o] + options, payload)
  {
  }

  lemma {:induction false} OptionThenTail(prev: int, o: CoapOption, tail: seq<Byte>, options: seq<CoapOption>, payload: seq<Byte>)
    requires EncodeOption(o.number - prev, o.value).Bytes? && Decodes(o.number, tail, options, payload)
    ensures Decodes(prev, EncodeOption(o.number - prev, o.value).bytes + tail, [o] + options, payload)
  {
    HeaderIsNotMarker(o.number - prev, o.value);
    OptionRoundTrip(prev, o, tail);
    TailStep(prev, o, EncodeOption(o.number - prev, o.value).bytes, tail, options, payload);
  }

  lemma {:induction false} NoOptions(prev: int, payload: seq<Byte>)
    ensures Decodes(prev, [] + Marked(payload), [], payload)
  {
  }

  /** Decoding undoes encoding of options and payload. */
  lemma {:induction false} TailRoundTrip(prev: int, options: seq<CoapOption>, payload: seq<Byte>)
    requires EncodeOptions(prev, options).Bytes?
    ensures Decodes(prev, EncodeOptions(prev, options).bytes + Marked(payload), options, payload)
    decreases |options|
  {
    var marked := Marked(payload);
    if options == [] {
      NoOptions(prev, payload);
    } else {
      var o := options[0];
      var first := EncodeOption(o.number - prev, o.value).bytes;
      var rest := EncodeOptions(o.number, options[1..]).bytes;
      TailRoundTrip(o.number, options[1..], payload);
      OptionThenTail(prev, o, rest + marked, options[1..], payload);
      Regroup(first, rest, marked);
      assert [o] + options[1..] == options;
    }
  }

  /** The message that a receiver is meant to see. */
  function Canonical(m: Message): Message {
    m.(kind := m.kind % 4, options := Sort(NumberLeq, m.options))
  }

  lemma {:induction false} FirstByteFields(kind: int, tokenLength: nat)
    requires tokenLength < 16
    ensures FirstByte(kind, tokenLength) == 64 + 16 * (kind % 4) + tokenLength
  {
    var t := kind % 4;
    assert Pow2(6) == 64 && Aligned(64, 6);
    OrAligned(64, 16 * t, 6);
    OrNibble(4 + t, tokenLength);
  }

  lemma {:induction false} FixedFields(first: Byte, m: Message, body: seq<Byte>)
    requires |m.token| < 16 && 0 <= m.code < 256 && 0 <= m.mid < 65536 && 0 <= m.kind < 4
    requires first as int == 64 + 16 * m.kind + |m.token|
    ensures var data := [first, m.code] + Half(m.mid) + m.token + body;
      TokenLength(data) == |m.token| && Drop(data, 4 + |m.token|) == body && Assemble(data, m.options, m.payload) == m
  {
  }

  lemma {:induction false} WholeRoundTrip(first: Byte, m: Message, body: seq<Byte>)
    requires |m.token| < 16 && 0 <= m.code < 256 && 0 <= m.mid < 65536 && 0 <= m.kind < 4
    requires first as int == 64 + 16 * m.kind + |m.token| && Decodes(0, body, m.options, m.payload)
    ensures Decode([first, m.code] + Half(m.mid) + m.token + body) == Decoded(m)
  {
    FixedFields(first, m, body);
    assert DecodeTail(0, body) == Tail(m.options, m.payload);
  }

  lemma {:induction false} ShortTokenRoundTrip(m: Message)
    requires Encode(m).Bytes? && |m.token| < 16
    ensures Decode(Encode(m).bytes) == Decoded(Canonical(m))
  {
    var first := FirstByte(m.kind, |m.token|);
    var options := Sort(NumberLeq, m.options);
    var body := EncodeOptions(0, options).bytes;
    FirstByteFields(m.kind, |m.token|);
    TailRoundTrip(0, options, m.payload);
    WholeRoundTrip(first, Canonical(m), body + Marked(m.payload));
  }

  lemma {:induction false} DecodedTokenIsShort(data: seq<Byte>)
    requires Decode(data).Decoded?
    ensures |Decode(data).message.token| < 16
  {
  }

  /** Decoding an encoded message gives it back, its options stably sorted by number, exactly when the
      token fits the four-bit length field. */
  lemma {:induction false} RoundTrip(m: Message)
    requires Encode(m).Bytes?
    ensures Decode(Encode(m).bytes) == Decoded(Canonical(m)) <==> |m.token| < 16
  {
    if |m.token| < 16 {
      ShortTokenRoundTrip(m);
    } else if Decode(Encode(m).bytes).Decoded? {
      DecodedTokenIsShort(Encode(m).bytes);
    }
  }

  lemma {:induction false} IsCanonical(m: Message)
    requires 0 <= m.kind < 4 && Sorted(NumberLeq, m.options)
    ensures Canonical(m) == m
  {
    SortOfSorted(NumberLeq, m.options);
  }

  /** A message in canonical form comes back as it is. */
  lemma {:induction false} CanonicalRoundTrip(m: Message)
    requires Encode(m).Bytes? && |m.token| < 16 && Canonical(m) == m
    ensures Decode(Encode(m).bytes) == Decoded(m)
  {
    ShortTokenRoundTrip(m);
  }

  lemma {:induction false} NumberLeqIsTotal()
    ensures TotalPreorder(NumberLeq)
  {
  }

  /** The options of a decoded message are sorted, keep the order of equal numbers and lose none. */
  lemma {:induction false} CanonicalOptions(m: Message, number: int)
    ensures Sorted(NumberLeq, Canonical(m).options)
    ensures multiset(Canonical(m).options) == multiset(m.options)
    ensures Filter((o: CoapOption) => o.number == number, Canonical(m).options) == Filter((o: CoapOption) => o.number == number, m.options)
  {
    NumberLeqIsTotal();
    SortSorts(NumberLeq, m.options);
    SortIsStable(NumberLeq, (o: CoapOption) => o.number == number, m.options);
  }

  /** What a message must satisfy to be encoded. */
  ghost predicate InRange(m: Message) {
    && 0 <= m.code < 256 && 0 <= m.mid < 65536 && |m.token| < 256
    && GapsInRange(0, Sort(NumberLeq, m.options))
  }

  ghost predicate GapsInRange(prev: int, options: seq<CoapOption>)
    decreases |options|
  {
    options != [] ==>
      && 0 <= options[0].number - prev < EXT_LIMIT && |options[0].value| < EXT_LIMIT
      && GapsInRange(options[0].number, options[1..])
  }

  lemma {:induction false} OptionsEncodeInRange(prev: int, options: seq<CoapOption>)
    ensures EncodeOptions(prev, options).Bytes? <==> GapsInRange(prev, options)
    decreases |options|
  {
    if options != [] {
      OptionsEncodeInRange(options[0].number, options[1..]);
    }
  }

  /** Encoding fails exactly on the messages whose fields do not fit. */
  lemma {:induction false} EncodesInRange(m: Message)
    ensures Encode(m).Bytes? <==> InRange(m)
  {
    OptionsEncodeInRange(0, Sort(NumberLeq, m.options));
    FirstByteFits(m.kind, |m.token|);
  }

  lemma {:induction false} FirstByteFits(kind: int, tokenLength: nat)
    ensures FirstByte(kind, tokenLength) < 256 <==> tokenLength < 256
  {
    FirstByteFields(kind, 0);
    OrAtLeast(BitOr(64, 16 * (kind % 4)), tokenLength);
    assert Pow2(8) == 256;
    if tokenLength < 256 {
      OrBelow(BitOr(64, 16 * (kind % 4)), tokenLength, 8);
    }
  }

  /** A sixteen-byte token is encoded and does not come back. */
  lemma {:induction false} LongTokenIsLost()
    ensures var m := Message(0, 1, 0x1234, seq(16, i => 7), [], []);
      Encode(m).Bytes? && Decode(Encode(m).bytes) != Decoded(Canonical(m))
  {
    var m := Message(0, 1, 0x1234, seq(16, i => 7), [], []);
    EncodesInRange(m);
    RoundTrip(m);
  }
}
