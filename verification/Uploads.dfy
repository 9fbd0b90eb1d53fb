/** Block1 uploads end to end: cutting, sending, receiving in any order and reassembling. */
module Uploads {
  import opened Runtime
  import opened Ordering
  import opened CoapCodec
  import opened Blockwise

  type Token = seq<Byte>

  type Buffers = map<Token, seq<Byte>>

  // ---------------------------------------------------------------- the sender

  datatype Piece = Piece(num: nat, more: bool, chunk: seq<Byte>)

  /** Cuts a body into consecutive pieces. */
  method Cut(body: seq<Byte>, size: nat) returns (pieces: seq<Piece>)
    requires size > 0
    ensures forall k :: 0 <= k < |pieces| ==>
      pieces[k] == Piece(k, k + 1 < |pieces|, Chunk(body, size, k))
    ensures forall num: nat :: IsBlock(body, size, num) <==> num < |pieces|
  {
    pieces := [];
    var offset := 0;
    while offset < |body|
      invariant offset == |pieces| * size
      invariant |pieces| > 0 ==> offset - size < |body|
      invariant forall k :: 0 <= k < |pieces| ==> pieces[k] == Piece(k, k * size + size < |body|, Chunk(body, size, k))
      decreases |body| - offset
    {
      NextOffset(|pieces|, size);
      pieces := pieces + [Piece(|pieces|, offset + size < |body|, Take(Drop(body, offset), size))];
      offset := offset + size;
    }
    forall num: nat ensures IsBlock(body, size, num) <==> num < |pieces| {
      OffsetsGrow(num, |pieces|, size);
    }
    forall k | 0 <= k < |pieces| ensures pieces[k].more <==> k + 1 < |pieces| {
      NextOffset(k, size);
      OffsetsGrow(k + 1, |pieces|, size);
    }
  }

  lemma {:induction false} NextOffset(k: nat, size: nat)
    ensures (k + 1) * size == k * size + size
  {
  }

  lemma {:induction false} OffsetsGrow(num: nat, count: nat, size: nat)
    ensures num < count ==> num * size + size <= count * size
    ensures num >= count ==> num * size >= count * size
  {
    if num < count {
      MulMinus(size, count, num + 1);
    } else {
      MulMinus(size, num, count);
    }
  }

  // ---------------------------------------------------------------- the receiver

  /** The first option with a number. */
  function Lookup(options: seq<CoapOption>, number: int): Option<seq<Byte>> {
    if options == [] then None
    else if options[0].number == number then Some(options[0].value)
    else Lookup(options[1..], number)
  }

  function BlockOf(req: Message): Block {
    var option := Lookup(req.options, OPT_BLOCK1);
    ParseBlock(if option.Some? then option.value else [])
  }

  function BufferOf(uploads: Buffers, token: Token): seq<Byte> {
    if token in uploads then uploads[token] else []
  }

  /** What one request does to the uploads. */
  function Step(uploads: Buffers, req: Message): Buffers {
    var block := BlockOf(req);
    uploads[req.token := Put(BufferOf(uploads, req.token), block.num * block.Size(), req.payload)]
  }

  const NON: int := 1
  const ACK: int := 2
  const CONTENT: int := 69
  const CONTINUE: int := 95

  /** The text `python-upload-`. */
  const UPLOAD_TEXT: seq<Byte> := [112, 121, 116, 104, 111, 110, 45, 117, 112, 108, 111, 97, 100, 45]

  /** Decimal digits, as text. */
  function Decimal(n: nat): seq<Byte> {
    if n < 10 then [48 + n] else Decimal(n / 10) + [48 + n % 10]
  }

  function ReadDecimal(text: seq<Byte>): int {
    if text == [] then 0 else 10 * ReadDecimal(text[..|text| - 1]) + (text[|text| - 1] as int - 48)
  }

  lemma {:induction false} DecimalRoundTrip(n: nat)
    ensures ReadDecimal(Decimal(n)) == n
  {
    if n >= 10 {
      DecimalRoundTrip(n / 10);
      var text := Decimal(n);
      assert text[..|text| - 1] == Decimal(n / 10);
    } else {
      assert [48 + n][..0] == [];
    }
  }

  function Echo(block: Block): CoapOption {
    CoapOption(OPT_BLOCK1, BlockValue(block.num, block.more, block.szx))
  }

  /** The answer to a block: go on, or the length received. */
  function Answer(req: Message, block: Block, length: nat): Message {
    var kind := if req.kind == CON then ACK else NON;
    if block.more then Message(kind, CONTINUE, req.mid, req.token, [Echo(block)], [])
    else Message(kind, CONTENT, req.mid, req.token, [CoapOption(OPT_CONTENT_FORMAT, []), Echo(block)], UPLOAD_TEXT + Decimal(length))
  }

  /** Zero-extends the buffer up to `at` and assigns the slice. */
  method WriteAt(buffer: seq<Byte>, at: nat, payload: seq<Byte>) returns (r: seq<Byte>)
    ensures r == Put(buffer, at, payload)
  {
    r := buffer;
    if |r| < at {
      r := r + Zeros(at - |r|);
    }
    r := r[..at] + payload + Drop(r, at + |payload|);
  }

  method WriteAnswer(req: Message, block: Block, length: nat) returns (reply: Message)
    ensures reply == Answer(req, block, length)
  {
    var kind := if req.kind == CON then ACK else NON;
    var echo := CoapOption(OPT_BLOCK1, BlockValue(block.num, block.more, block.szx));
    if block.more {
      return Message(kind, CONTINUE, req.mid, req.token, [echo], []);
    }
    return Message(kind, CONTENT, req.mid, req.token, [CoapOption(OPT_CONTENT_FORMAT, []), echo], UPLOAD_TEXT + Decimal(length));
  }

  class UploadServer {
    var uploads: Buffers

    constructor ()
      ensures uploads == map[]
    {
      uploads := map[];
    }

    /** Stores one block and answers it: go on, or the length received so far. */
    method Receive(req: Message) returns (reply: Message)
      modifies this
      ensures uploads == Step(old(uploads), req)
      ensures reply == Answer(req, BlockOf(req), |uploads[req.token]|)
    {
      var block := BlockOf(req);
      var buffer := WriteAt(BufferOf(uploads, req.token), block.num * block.Size(), req.payload);
      uploads := uploads[req.token := buffer];
      reply := WriteAnswer(req, block, |buffer|);
    }

    /** Serves a run of requests. */
    method Serve(run: seq<Message>)
      requires uploads == map[]
      modifies this
      ensures uploads == After(run)
    {
      for i := 0 to |run|
        invariant uploads == After(run[..i])
      {
        TakeOne(run, i);
        assert run[..i + 1][..i] == run[..i];
        var _ := Receive(run[i]);
      }
      TakeAll(run);
    }
  }

  /** The uploads after a run of requests. */
  function After(run: seq<Message>): Buffers {
    if run == [] then map[] else Step(After(run[..|run| - 1]), run[|run| - 1])
  }

  // ---------------------------------------------------------------- any order, any repetition

  /** A received request carries block `num` of `body`. */
  ghost predicate Carries(m: Message, body: seq<Byte>, szx: nat, num: nat) {
    && szx < 8 && num < 0x1000_0000 && IsBlock(body, Pow2(szx + 4), num)
    && m.payload == Chunk(body, Pow2(szx + 4), num)
    && exists more :: CarriesOption(m, num, more, szx)
  }

  ghost predicate CarriesOption(m: Message, num: nat, more: bool, szx: nat) {
    Lookup(m.options, OPT_BLOCK1) == Some(BlockValue(num, more, szx))
  }

  /** Every request for `token` carries the block that `nums` says; other tokens do as they like. */
  ghost predicate Uploading(run: seq<Message>, nums: seq<nat>, token: Token, body: seq<Byte>, szx: nat) {
    |nums| == |run| && szx < 8 && forall i :: 0 <= i < |run| && run[i].token == token ==> Carries(run[i], body, szx, nums[i])
  }

  /** The blocks that arrived for `token`. */
  ghost function Got(run: seq<Message>, nums: seq<nat>, token: Token): set<nat>
    requires |nums| == |run|
  {
    set i | 0 <= i < |run| && run[i].token == token :: nums[i]
  }

  lemma {:induction false} PowPositive(k: nat)
    ensures Pow2(k) > 0
  {
    if k > 0 {
      PowPositive(k - 1);
    }
  }

  lemma {:induction false} CarriedBlock(m: Message, body: seq<Byte>, szx: nat, num: nat)
    requires Carries(m, body, szx, num)
    ensures BlockOf(m).num == num && BlockOf(m).szx == szx && BlockOf(m).Size() == Pow2(szx + 4)
  {
    var more :| CarriesOption(m, num, more, szx);
    BlockRoundTrip(num, more, szx);
  }

  lemma {:induction false} GotOneMore(run: seq<Message>, nums: seq<nat>, token: Token)
    requires |nums| == |run| > 0
    ensures var n := |run| - 1;
      Got(run, nums, token) == Got(run[..n], nums[..n], token) + (if run[n].token == token then {nums[n]} else {})
  {
  }

  lemma {:induction false} StepPicture(uploads: Buffers, m: Message, body: seq<Byte>, szx: nat, num: nat, got: set<nat>)
    requires Pow2(szx + 4) > 0 && Carries(m, body, szx, num)
    requires IsPicture(BufferOf(uploads, m.token), body, Pow2(szx + 4), got)
    ensures IsPicture(BufferOf(Step(uploads, m), m.token), body, Pow2(szx + 4), got + {num})
  {
    CarriedBlock(m, body, szx, num);
    PutPicture(BufferOf(uploads, m.token), body, Pow2(szx + 4), got, num);
  }

  /** At every point of a run the buffer shows exactly the blocks that arrived, and zeros between them. */
  lemma {:induction false} UploadPicture(run: seq<Message>, nums: seq<nat>, token: Token, body: seq<Byte>, szx: nat)
    requires Uploading(run, nums, token, body, szx)
    ensures Pow2(szx + 4) > 0
    ensures IsPicture(BufferOf(After(run), token), body, Pow2(szx + 4), Got(run, nums, token))
    decreases |run|
  {
    PowPositive(szx + 4);
    if run != [] {
      var n := |run| - 1;
      assert Uploading(run[..n], nums[..n], token, body, szx) by {
        forall i | 0 <= i < n && run[..n][i].token == token ensures Carries(run[..n][i], body, szx, nums[..n][i]) {
          assert run[i].token == token;
        }
      }
      UploadPicture(run[..n], nums[..n], token, body, szx);
      GotOneMore(run, nums, token);
      if run[n].token == token {
        StepPicture(After(run[..n]), run[n], body, szx, nums[n], Got(run[..n], nums[..n], token));
      } else {
        assert Got(run, nums, token) == Got(run[..n], nums[..n], token);
      }
    }
  }

  /** Two runs that deliver the same blocks, in whatever order and however often, leave the same buffer. */
  lemma {:induction false} OrderDoesNotMatter(a: seq<Message>, as': seq<nat>, b: seq<Message>, bs: seq<nat>, token: Token, body: seq<Byte>, szx: nat)
    requires Uploading(a, as', token, body, szx) && Uploading(b, bs, token, body, szx)
    requires Got(a, as', token) == Got(b, bs, token)
    ensures BufferOf(After(a), token) == BufferOf(After(b), token)
  {
    UploadPicture(a, as', token, body, szx);
    UploadPicture(b, bs, token, body, szx);
    PictureIsUnique(BufferOf(After(a), token), BufferOf(After(b), token), body, Pow2(szx + 4), Got(a, as', token));
  }

  /** Delivering every block at least once leaves the body. */
  lemma {:induction false} UploadCompletes(run: seq<Message>, nums: seq<nat>, token: Token, body: seq<Byte>, szx: nat)
    requires Uploading(run, nums, token, body, szx)
    requires forall num: nat :: IsBlock(body, Pow2(szx + 4), num) ==> num in Got(run, nums, token)
    ensures BufferOf(After(run), token) == body
  {
    UploadPicture(run, nums, token, body, szx);
    CompletePicture(BufferOf(After(run), token), body, Pow2(szx + 4), Got(run, nums, token));
  }

  /** Once the last block has arrived the reported length is that of the body, whatever is missing. */
  lemma {:induction false} LengthAfterLastBlock(run: seq<Message>, nums: seq<nat>, token: Token, body: seq<Byte>, szx: nat)
    requires Uploading(run, nums, token, body, szx) && body != [] && Pow2(szx + 4) > 0
    requires (|body| - 1) / Pow2(szx + 4) in Got(run, nums, token)
    ensures |BufferOf(After(run), token)| == |body|
  {
    UploadPicture(run, nums, token, body, szx);
    LastBlock(body, Pow2(szx + 4));
  }

  // ---------------------------------------------------------------- over the wire

  /** The request a client sends for block `num`: some options that are not block options, then the block. */
  ghost predicate Sends(m: Message, others: seq<CoapOption>, num: nat, more: bool, szx: nat) {
    && m.options == others + [CoapOption(OPT_BLOCK1, BlockValue(num, more, szx))]
    && forall o :: o in others ==> o.number != OPT_BLOCK1
  }

  predicate IsBlockOption(o: CoapOption) {
    o.number == OPT_BLOCK1
  }

  lemma {:induction false} LookupIsFirst(options: seq<CoapOption>)
    ensures var found := Filter(IsBlockOption, options);
      Lookup(options, OPT_BLOCK1) == if found == [] then None else Some(found[0].value)
  {
    if options != [] {
      LookupIsFirst(options[1..]);
    }
  }

  lemma {:induction false} OnlyBlockOption(others: seq<CoapOption>, o: CoapOption)
    requires o.number == OPT_BLOCK1 && forall x :: x in others ==> x.number != OPT_BLOCK1
    ensures Filter(IsBlockOption, others + [o]) == [o]
  {
    if others == [] {
      assert others + [o] == [o];
    } else {
      assert (others + [o])[1..] == others[1..] + [o];
      OnlyBlockOption(others[1..], o);
    }
  }

  /** Encoding, sending, decoding and looking up gives back the block option. */
  lemma {:induction false} BlockTravels(m: Message, others: seq<CoapOption>, num: nat, more: bool, szx: nat)
    requires Sends(m, others, num, more, szx) && |m.token| < 16 && Encode(m).Bytes?
    ensures var d := Decode(Encode(m).bytes);
      d.Decoded? && d.message.token == m.token && d.message.payload == m.payload && CarriesOption(d.message, num, more, szx)
  {
    RoundTrip(m);
    NumberLeqIsTotal();
    SortIsStable(NumberLeq, IsBlockOption, m.options);
    LookupIsFirst(Canonical(m).options);
    OnlyBlockOption(others, CoapOption(OPT_BLOCK1, BlockValue(num, more, szx)));
  }

  /** One transmission: what was sent and what the receiver decoded. */
  ghost predicate Transmitted(sent: Message, received: Message) {
    Encode(sent).Bytes? && |sent.token| < 16 && Decode(Encode(sent).bytes) == Decoded(received)
  }

  ghost predicate SendsPiece(m: Message, body: seq<Byte>, szx: nat, num: nat) {
    && szx < 8 && num < 0x1000_0000 && IsBlock(body, Pow2(szx + 4), num)
    && m.payload == Chunk(body, Pow2(szx + 4), num)
    && exists others, more :: Sends(m, others, num, more, szx)
  }

  lemma {:induction false} PieceArrives(sent: Message, received: Message, body: seq<Byte>, szx: nat, num: nat)
    requires Transmitted(sent, received) && SendsPiece(sent, body, szx, num)
    ensures received.token == sent.token && Carries(received, body, szx, num)
  {
    var others, more :| Sends(sent, others, num, more, szx);
    BlockTravels(sent, others, num, more, szx);
  }

  lemma {:induction false} TokenArrives(sent: Message, received: Message)
    requires Transmitted(sent, received)
    ensures received.token == sent.token
  {
    RoundTrip(sent);
  }

  /** A client's datagrams may arrive in any order, repeated, and mixed with those of other clients: once
      every block has arrived at least once, the server's buffer for that token is the body. */
  lemma {:induction false} UploadOverTheWire(sent: seq<Message>, received: seq<Message>, nums: seq<nat>, token: Token, body: seq<Byte>, szx: nat)
    requires |sent| == |received| == |nums| && szx < 8
    requires forall i :: 0 <= i < |sent| ==> Transmitted(sent[i], received[i])
    requires forall i :: 0 <= i < |sent| && sent[i].token == token ==> SendsPiece(sent[i], body, szx, nums[i])
    requires forall num: nat :: IsBlock(body, Pow2(szx + 4), num) ==> num in Got(sent, nums, token)
    ensures BufferOf(After(received), token) == body
  {
    forall i | 0 <= i < |received| && received[i].token == token ensures Carries(received[i], body, szx, nums[i]) {
      TokenArrives(sent[i], received[i]);
      PieceArrives(sent[i], received[i], body, szx, nums[i]);
    }
    forall num: nat | IsBlock(body, Pow2(szx + 4), num) ensures num in Got(received, nums, token) {
      assert num in Got(sent, nums, token);
      var i :| 0 <= i < |sent| && sent[i].token == token && nums[i] == num;
      TokenArrives(sent[i], received[i]);
    }
    UploadCompletes(received, nums, token, body, szx);
  }

  lemma {:induction false} ShortValue(w: nat, k: nat)
    requires w < Pow256(k)
    ensures |Shortest(w)| <= k
  {
    if w != 0 {
      ShortValue(w / 256, k - 1);
    }
  }

  function Pow256(k: nat): nat {
    if k == 0 then 1 else 256 * Pow256(k - 1)
  }

  lemma {:induction false} EchoIsShort(block: Block)
    ensures |Echo(block).value| <= 4
  {
    assert Pow256(4) == WORD;
    ShortValue(BlockRaw(block.num, block.more, block.szx) % WORD, 4);
  }

  lemma {:induction false} SmallSorted(a: CoapOption, b: CoapOption)
    requires a.number <= b.number
    ensures Sorted(NumberLeq, [b]) && Sorted(NumberLeq, [a, b])
  {
  }

  lemma {:induction false} AnswerIsCanonical(req: Message, block: Block, length: nat)
    ensures Canonical(Answer(req, block, length)) == Answer(req, block, length)
  {
    SmallSorted(CoapOption(OPT_CONTENT_FORMAT, []), Echo(block));
    IsCanonical(Answer(req, block, length));
  }

  lemma {:induction false} AnswerEncodes(req: Message, block: Block, length: nat)
    requires 0 <= req.mid < 65536 && |req.token| < 16
    ensures Encode(Answer(req, block, length)).Bytes?
  {
    var m := Answer(req, block, length);
    AnswerIsCanonical(req, block, length);
    EchoIsShort(block);
    EchoFits(block);
    assert !block.more ==> m.options[1..] == [Echo(block)];
    assert GapsInRange(0, m.options);
    EncodesInRange(m);
  }

  lemma {:induction false} EchoFits(block: Block)
    ensures GapsInRange(0, [Echo(block)]) && GapsInRange(OPT_CONTENT_FORMAT, [Echo(block)])
  {
    EchoIsShort(block);
    assert [Echo(block)][1..] == [];
  }

  /** The answer reaches the sender as it was sent. */
  lemma {:induction false} AnswerArrives(req: Message, block: Block, length: nat)
    requires 0 <= req.mid < 65536 && |req.token| < 16
    ensures Encode(Answer(req, block, length)).Bytes?
    ensures Decode(Encode(Answer(req, block, length)).bytes) == Decoded(Answer(req, block, length))
  {
    AnswerEncodes(req, block, length);
    AnswerIsCanonical(req, block, length);
    CanonicalRoundTrip(Answer(req, block, length));
  }

  /** It names the block it is for, and at the end the stored length. */
  lemma {:induction false} AnswerSays(req: Message, block: Block, length: nat)
    ensures Lookup(Answer(req, block, length).options, OPT_BLOCK1) == Some(BlockValue(block.num, block.more, block.szx))
    ensures !block.more ==> ReadDecimal(Answer(req, block, length).payload[|UPLOAD_TEXT|..]) == length
  {
    var m := Answer(req, block, length);
    DecimalRoundTrip(length);
    if !block.more {
      assert m.options[1..] == [Echo(block)];
      assert m.payload[|UPLOAD_TEXT|..] == Decimal(length);
    }
  }
}
