/** The second, independent CoAP request encoder and its agreement with the first. */
module CoapRequests {
  import opened Runtime
  import opened Ordering
  import opened CoapCodec

  const TYPE_CON: int := 0

  // ---------------------------------------------------------------- paths

  /** Splits at every slash, as `str.split` does. */
  function Split(path: string): (r: seq<string>)
    ensures r != []
  {
    if path == [] then [[]]
    else
      var rest := Split(path[1..]);
      if path[0] == '/' then [[]] + rest else [[path[0]] + rest[0]] + rest[1..]
  }

  function NonEmpty(parts: seq<string>): seq<string> {
    if parts == [] then []
    else (if parts[0] == [] then [] else [parts[0]]) + NonEmpty(parts[1..])
  }

  function StripLeft(path: string): string {
    if path != [] && path[0] == '/' then StripLeft(path[1..]) else path
  }

  function StripRight(path: string): string {
    if path != [] && path[|path| - 1] == '/' then StripRight(path[..|path| - 1]) else path
  }

  lemma {:induction false} NonEmptyAppend(a: seq<string>, b: seq<string>)
    ensures NonEmpty(a + b) == NonEmpty(a) + NonEmpty(b)
  {
    if a == [] {
      assert a + b == b;
    } else {
      assert (a + b)[1..] == a[1..] + b;
      NonEmptyAppend(a[1..], b);
    }
  }

  lemma {:induction false} SplitAtEnd(path: string)
    ensures Split(path + "/") == Split(path) + [[]]
  {
    if path != [] {
      assert (path + "/")[1..] == path[1..] + "/";
      SplitAtEnd(path[1..]);
    } else {
      assert path + "/" == "/" && "/"[1..] == [];
    }
  }

  lemma {:induction false} StripLeftKeepsSegments(path: string)
    ensures NonEmpty(Split(StripLeft(path))) == NonEmpty(Split(path))
  {
    if path != [] && path[0] == '/' {
      StripLeftKeepsSegments(path[1..]);
      assert Split(path)[1..] == Split(path[1..]);
    }
  }

  lemma {:induction false} StripRightKeepsSegments(path: string)
    ensures NonEmpty(Split(StripRight(path))) == NonEmpty(Split(path))
  {
    if path != [] && path[|path| - 1] == '/' {
      var front := path[..|path| - 1];
      StripRightKeepsSegments(front);
      assert path == front + "/";
      SplitAtEnd(front);
      NonEmptyAppend(Split(front), [[]]);
    }
  }

  /** Stripping slashes first does not change the segments of a path. */
  lemma {:induction false} StripKeepsSegments(path: string)
    ensures NonEmpty(Split(StripRight(StripLeft(path)))) == NonEmpty(Split(path))
  {
    StripRightKeepsSegments(StripLeft(path));
    StripLeftKeepsSegments(path);
  }

  function PathOptions(segments: seq<string>, utf8: string -> seq<Byte>): (r: seq<CoapOption>)
    ensures |r| == |segments|
  {
    seq(|segments|, i requires 0 <= i < |segments| => CoapOption(OPT_URI_PATH, utf8(segments[i])))
  }

  // ---------------------------------------------------------------- the second encoder

  /** Big-endian bytes of a fixed length. */
  function ToBytes(value: int, length: nat): (r: Encoded)
    ensures r.Bytes? ==> |r.bytes| == length
    decreases length
  {
    if length == 0 then if value == 0 then Bytes([]) else OutOfRange
    else
      var high := ToBytes(value / 256, length - 1);
      if high.OutOfRange? then OutOfRange else Bytes(high.bytes + [value % 256])
  }

  lemma {:induction false} ToTwoBytes(value: int)
    ensures ToBytes(value, 2) == if 0 <= value < 65536 then Bytes(Half(value)) else OutOfRange
  {
  }

  function OptionNibble(value: int): Extended {
    if value < 13 then Extended(value, [])
    else if value < 269 then Extended(13, [value - 13])
    else
      var wide := ToBytes(value - 269, 2);
      if wide.OutOfRange? then TooLarge else Extended(14, wide.bytes)
  }

  function MakeOption(delta: int, value: seq<Byte>): Encoded {
    var d, l := OptionNibble(delta), OptionNibble(|value|);
    if d.TooLarge? || l.TooLarge? then OutOfRange
    else
      var header := 16 * d.nibble + l.nibble;
      if 0 <= header < 256 then Bytes([header] + d.extra + l.extra + value) else OutOfRange
  }

  /** The two encoders write an option alike. */
  lemma {:induction false} OptionsAgree(delta: int, value: seq<Byte>)
    ensures MakeOption(delta, value) == EncodeOption(delta, value)
  {
  }

  method WriteOption(delta: int, value: seq<Byte>) returns (one: Encoded)
    ensures EncodesOption(delta, value, one)
  {
    OptionsAgree(delta, value);
    one := MakeOption(delta, value);
  }

  method WriteId(mid: int) returns (id: Encoded)
    ensures id == if 0 <= mid < 65536 then Bytes(Half(mid)) else OutOfRange
  {
    ToTwoBytes(mid);
    id := ToBytes(mid, 2);
  }

  function RequestOptions(segments: seq<string>, payload: seq<Byte>, utf8: string -> seq<Byte>): seq<CoapOption> {
    PathOptions(segments, utf8) + (if payload == [] then [] else [CoapOption(OPT_CONTENT_FORMAT, [])])
  }

  /** The request as the first encoder is given it. */
  function RequestMessage(path: string, token: seq<Byte>, mid: int, code: int, payload: seq<Byte>, utf8: string -> seq<Byte>): Message {
    Message(TYPE_CON, code, mid, token, RequestOptions(NonEmpty(Split(StripRight(StripLeft(path)))), payload, utf8), payload)
  }

  /** A request's options are in order already. */
  lemma {:induction false} RequestIsSorted(segments: seq<string>, payload: seq<Byte>, utf8: string -> seq<Byte>)
    ensures Sort(NumberLeq, RequestOptions(segments, payload, utf8)) == RequestOptions(segments, payload, utf8)
  {
    SortOfSorted(NumberLeq, RequestOptions(segments, payload, utf8));
  }

  /** Writes the request option by option; the bytes are those of the first encoder. */
  method EncodeRequest(path: string, token: seq<Byte>, mid: int, code: int, payload: seq<Byte>, utf8: string -> seq<Byte>)
    returns (r: Encoded)
    ensures r == Encode(RequestMessage(path, token, mid, code, payload, utf8))
  {
    StripKeepsSegments(path);
    r := EncodeSegments(NonEmpty(Split(path)), token, mid, code, payload, utf8);
  }

  method EncodeSegments(segments: seq<string>, token: seq<Byte>, mid: int, code: int, payload: seq<Byte>, utf8: string -> seq<Byte>)
    returns (r: Encoded)
    ensures r == Encode(Message(TYPE_CON, code, mid, token, RequestOptions(segments, payload, utf8), payload))
  {
    RequestIsSorted(segments, payload, utf8);
    var body := WriteRequestOptions(segments, payload, utf8);
    r := Frame(FirstByte(TYPE_CON, |token|), code, mid, token, body, payload);
  }

  /** Puts header, message id, token and payload around the options. */
  method Frame(first: nat, code: int, mid: int, token: seq<Byte>, body: Encoded, payload: seq<Byte>) returns (r: Encoded)
    ensures r == Framed(first, code, mid, token, body, payload)
  {
    if first >= 256 || !(0 <= code < 256) {
      return OutOfRange;
    }
    var id := WriteId(mid);
    if id.OutOfRange? || body.OutOfRange? {
      return OutOfRange;
    }
    var out: seq<Byte> := [first, code] + id.bytes + token;
    ghost var start := out;
    out := out + body.bytes;
    if payload != [] {
      out := out + ([MARKER] + payload);
    }
    assert out == start + (body.bytes + Marked(payload));
    return Bytes(out);
  }

  method WriteRequestOptions(segments: seq<string>, payload: seq<Byte>, utf8: string -> seq<Byte>) returns (r: Encoded)
    ensures r == EncodeOptions(0, RequestOptions(segments, payload, utf8))
  {
    ghost var options := RequestOptions(segments, payload, utf8);
    var out, last := [], 0;
    assert options[0..] == options;
    PrependNothing(EncodeOptions(0, options));
    for i := 0 to |segments|
      invariant EncodeOptions(0, options) == Prepend(out, EncodeOptions(last, options[i..]))
    {
      var one := WriteOption(OPT_URI_PATH - last, utf8(segments[i]));
      WriteStep(options, i, last, out, one);
      if one.OutOfRange? {
        return OutOfRange;
      }
      out, last := out + one.bytes, OPT_URI_PATH;
    }
    if payload != [] {
      var one := WriteOption(OPT_CONTENT_FORMAT - last, []);
      WriteStep(options, |segments|, last, out, one);
      if one.OutOfRange? {
        return OutOfRange;
      }
      out, last := out + one.bytes, OPT_CONTENT_FORMAT;
    }
    assert options[|options|..] == [];
    assert out + [] == out;
    return Bytes(out);
  }

  /** What the second encoder sends, the first decoder reads back. */
  lemma {:induction false} RequestRoundTrip(path: string, token: seq<Byte>, mid: int, code: int, payload: seq<Byte>, utf8: string -> seq<Byte>)
    requires |token| < 16 && Encode(RequestMessage(path, token, mid, code, payload, utf8)).Bytes?
    ensures var m := RequestMessage(path, token, mid, code, payload, utf8);
      Decode(Encode(m).bytes) == Decoded(m)
  {
    RequestIsSorted(NonEmpty(Split(StripRight(StripLeft(path)))), payload, utf8);
    CanonicalRoundTrip(RequestMessage(path, token, mid, code, payload, utf8));
  }
}
