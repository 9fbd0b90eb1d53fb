/** Block options and Block1 reassembly (section 2.2 of RFC 7959). */
module Blockwise {
  import opened Runtime
  import opened Ordering
  import opened CoapCodec

  const OPT_BLOCK1: int := 27
  const CON: int := 0
  const POST: int := 2
  const WORD: int := 0x1_0000_0000

  // ---------------------------------------------------------------- unsigned integers

  /** The shortest big-endian form; zero is empty. */
  function Shortest(w: nat): seq<Byte> {
    if w == 0 then [] else Shortest(w / 256) + [w % 256]
  }

  function DecUint(bytes: seq<Byte>): nat {
    if bytes == [] then 0 else 256 * DecUint(bytes[..|bytes| - 1]) + bytes[|bytes| - 1] as int
  }

  /** Folds the bytes from the left. */
  method DecodeUint(bytes: seq<Byte>) returns (result: nat)
    ensures result == DecUint(bytes)
  {
    result := 0;
    for i := 0 to |bytes|
      invariant result == DecUint(bytes[..i])
    {
      TakeOne(bytes, i);
      assert bytes[..i + 1][..i] == bytes[..i];
      result := 256 * result + bytes[i] as int;
    }
    TakeAll(bytes);
  }

  lemma {:induction false} ShortestRoundTrip(w: nat)
    ensures DecUint(Shortest(w)) == w
  {
    if w != 0 {
      ShortestRoundTrip(w / 256);
      var bytes := Shortest(w);
      assert bytes[..|bytes| - 1] == Shortest(w / 256);
    }
  }

  /** One byte of the 32-bit value, counted from the low end. */
  function ByteAt(value: int, shift: nat): Byte
    requires shift in {1, 256, 65536, 16777216}
  {
    value / shift % 256
  }

  lemma {:induction false} MulAtLeast(d: int, k: int)
    requires d > 0 && k >= 1
    ensures d * k >= d
  {
  }

  lemma {:induction false} MulMinus(d: int, p: int, q: int)
    ensures d * (p - q) == d * p - d * q
  {
  }

  lemma {:induction false} NoLargerQuotient(d: int, p: int, s: int, q: int, r: int)
    requires 0 <= s && r < d && d > 0 && d * p + s == d * q + r
    ensures p <= q
  {
    if p > q {
      MulMinus(d, p, q);
      MulAtLeast(d, p - q);
    }
  }

  /** Quotient and remainder are what they must be. */
  lemma {:induction false} Euclid(a: int, d: int, q: int, r: int)
    requires 0 <= r < d && a == d * q + r
    ensures a / d == q && a % d == r
  {
    NoLargerQuotient(d, a / d, a % d, q, r);
    NoLargerQuotient(d, q, r, a / d, a % d);
  }

  /** Adding a multiple of 256 units leaves the byte above a unit alone. */
  lemma {:induction false} SameByte(w: int, unit: int, y: int)
    requires unit > 0
    ensures (unit * (256 * y) + w) / unit % 256 == w / unit % 256
  {
    Euclid(unit * (256 * y) + w, unit, 256 * y + w / unit, w % unit);
  }

  lemma {:induction false} ByteOfWord(value: int, shift: nat)
    requires shift in {1, 256, 65536, 16777216}
    ensures ByteAt(value, shift) == value % WORD / shift % 256
  {
    var w, q := value % WORD, value / WORD;
    assert value == WORD * q + w;
    if shift == 1 {
      SameByte(w, 1, 16777216 * q);
    } else if shift == 256 {
      SameByte(w, 256, 65536 * q);
    } else if shift == 65536 {
      SameByte(w, 65536, 256 * q);
    } else {
      SameByte(w, 16777216, q);
    }
  }

  const UNITS: seq<int> := [0x1_0000_0000, 16777216, 65536, 256, 1]

  lemma {:induction false} UnitStep(value: int, i: nat)
    requires i < 4
    ensures UNITS[i + 1] in {1, 256, 65536, 16777216} && UNITS[i] > 0
    ensures value % WORD / UNITS[i + 1] / 256 == value % WORD / UNITS[i]
    ensures ByteAt(value, UNITS[i + 1]) == value % WORD / UNITS[i + 1] % 256
  {
    var w := value % WORD;
    if i == 0 {
      assert w / 16777216 / 256 == w / 0x1_0000_0000;
    } else if i == 1 {
      assert w / 65536 / 256 == w / 16777216;
    } else if i == 2 {
      assert w / 256 / 256 == w / 65536;
    }
    ByteOfWord(value, UNITS[i + 1]);
  }

  /** Appends the bytes from the first that is not zero, most significant first. */
  method EncodeUint(value: int) returns (out: seq<Byte>)
    ensures out == Shortest(value % WORD)
  {
    if value == 0 {
      return [];
    }
    out := [];
    var started := false;
    for i := 0 to 4
      invariant started <==> out != []
      invariant UNITS[i] > 0 && out == Shortest(value % WORD / UNITS[i])
    {
      UnitStep(value, i);
      var b := ByteAt(value, UNITS[i + 1]);
      if b != 0 || started {
        out := out + [b];
        started := true;
      }
    }
  }

  // ---------------------------------------------------------------- block options

  /** Number, more flag and size exponent in one integer; the three fields do not overlap. */
  function BlockRaw(num: int, more: bool, szx: int): int {
    16 * num + (if more then 8 else 0) + szx % 8
  }

  function BlockValue(num: int, more: bool, szx: int): seq<Byte> {
    Shortest(BlockRaw(num, more, szx) % WORD)
  }

  datatype Block = Block(num: int, more: bool, szx: int) {
    function Size(): nat
      requires szx >= 0
    {
      Pow2(szx + 4)
    }
  }

  function ParseBlock(bytes: seq<Byte>): Block {
    var raw := DecUint(bytes);
    Block(raw / 16, raw / 8 % 2 == 1, raw % 8)
  }

  lemma {:induction false} UpperFields(w: nat, n: nat, bit: nat, s: nat)
    requires bit < 2 && s < 8 && w == 16 * n + 8 * bit + s
    ensures w / 16 == n && w / 8 == 2 * n + bit && w % 8 == s
  {
    Euclid(w, 16, n, 8 * bit + s);
    Euclid(w, 8, 2 * n + bit, s);
  }

  lemma {:induction false} FieldsOfWord(n: nat, more: bool, s: nat)
    requires s < 8
    ensures ParseBlock(Shortest(16 * n + (if more then 8 else 0) + s)) == Block(n, more, s)
  {
    var bit := if more then 1 else 0;
    var w := 16 * n + 8 * bit + s;
    ShortestRoundTrip(w);
    UpperFields(w, n, bit, s);
    Euclid(2 * n + bit, 2, n, bit);
  }

  lemma {:induction false} WordOfRaw(num: int, low: int)
    requires 0 <= low < 16
    ensures (16 * num + low) % WORD == 16 * (num % 0x1000_0000) + low
  {
    Euclid(16 * num + low, WORD, num / 0x1000_0000, 16 * (num % 0x1000_0000) + low);
  }

  /** A block option comes back with its number cut to 28 bits and its exponent to three. */
  lemma {:induction false} BlockFields(num: int, more: bool, szx: int)
    ensures ParseBlock(BlockValue(num, more, szx)) == Block(num % 0x1000_0000, more, szx % 8)
  {
    WordOfRaw(num, (if more then 8 else 0) + szx % 8);
    FieldsOfWord(num % 0x1000_0000, more, szx % 8);
  }

  lemma {:induction false} InRangeMod(x: int, m: int)
    requires m > 0
    ensures x % m == x <==> 0 <= x < m
  {
    if 0 <= x < m {
      Euclid(x, m, 0, x);
    }
  }

  /** Block options round-trip exactly for 28-bit numbers and three-bit exponents. */
  lemma {:induction false} BlockRoundTrip(num: int, more: bool, szx: int)
    ensures ParseBlock(BlockValue(num, more, szx)) == Block(num, more, szx) <==> 0 <= num < 0x1000_0000 && 0 <= szx < 8
  {
    BlockFields(num, more, szx);
    InRangeMod(num, 0x1000_0000);
    InRangeMod(szx, 8);
  }

  /** The first block number that does not fit comes back as zero. */
  lemma {:induction false} LargeNumberIsCut()
    ensures ParseBlock(BlockValue(0x1000_0000, false, 4)) == Block(0, false, 4)
  {
    BlockFields(0x1000_0000, false, 4);
  }

  // ---------------------------------------------------------------- one buffer

  function Zeros(n: nat): seq<Byte> {
    seq(n, i => 0)
  }

  /** Zero-extends up to `at` and then assigns the slice that starts there. */
  function Put(buffer: seq<Byte>, at: nat, payload: seq<Byte>): seq<Byte> {
    var padded := if |buffer| < at then buffer + Zeros(at - |buffer|) else buffer;
    padded[..at] + payload + Drop(padded, at + |payload|)
  }

  lemma {:induction false} PutContents(buffer: seq<Byte>, at: nat, payload: seq<Byte>)
    requires payload != []
    ensures var r := Put(buffer, at, payload);
      && |r| == (if at + |payload| > |buffer| then at + |payload| else |buffer|)
      && forall i :: 0 <= i < |r| ==>
           r[i] == if at <= i < at + |payload| then payload[i - at] else if i < |buffer| then buffer[i] else 0
  {
  }

  /** The block of `body` with the given number. */
  function Chunk(body: seq<Byte>, size: nat, num: nat): seq<Byte> {
    Take(Drop(body, num * size), size)
  }

  /** `num` is one of the blocks `body` is cut into. */
  predicate IsBlock(body: seq<Byte>, size: nat, num: nat) {
    num * size < |body|
  }

  function ChunkEnd(body: seq<Byte>, size: nat, num: nat): nat {
    if num * size + size < |body| then num * size + size else |body|
  }

  lemma {:induction false} ChunkContents(body: seq<Byte>, size: nat, num: nat)
    requires size > 0 && IsBlock(body, size, num)
    ensures Chunk(body, size, num) != [] && num * size + |Chunk(body, size, num)| == ChunkEnd(body, size, num)
    ensures Chunk(body, size, num) == body[num * size..ChunkEnd(body, size, num)]
  {
  }

  lemma {:induction false} BlockOfIndex(i: nat, size: nat, num: nat)
    requires size > 0
    ensures i / size == num <==> num * size <= i < num * size + size
  {
    var q, r := i / size, i % size;
    assert i == size * q + r;
    if q < num {
      assert size * (q + 1) <= size * num;
    } else if q > num {
      assert size * (num + 1) <= size * q;
    }
  }

  /** What the buffer holds once exactly the blocks in `got` have arrived. */
  ghost predicate IsPicture(buffer: seq<Byte>, body: seq<Byte>, size: nat, got: set<nat>)
    requires size > 0
  {
    && |buffer| <= |body|
    && (forall d :: d in got ==> ChunkEnd(body, size, d) <= |buffer|)
    && (buffer == [] || exists d :: d in got && |buffer| == ChunkEnd(body, size, d))
    && (forall i :: 0 <= i < |buffer| ==> buffer[i] == Pixel(body, size, got, i))
  }

  ghost function Pixel(body: seq<Byte>, size: nat, got: set<nat>, i: nat): Byte
    requires size > 0 && i < |body|
  {
    if i / size in got then body[i] else 0
  }

  lemma {:induction false} PutPicture(buffer: seq<Byte>, body: seq<Byte>, size: nat, got: set<nat>, num: nat)
    requires size > 0 && IsBlock(body, size, num) && IsPicture(buffer, body, size, got)
    ensures IsPicture(Put(buffer, num * size, Chunk(body, size, num)), body, size, got + {num})
  {
    var at, chunk := num * size, Chunk(body, size, num);
    var r := Put(buffer, at, chunk);
    ChunkContents(body, size, num);
    PutContents(buffer, at, chunk);
    assert |r| == ChunkEnd(body, size, num) || |r| == |buffer|;
    forall i | 0 <= i < |r| ensures r[i] == Pixel(body, size, got + {num}, i) {
      BlockOfIndex(i, size, num);
      if i < |buffer| {
        assert buffer[i] == Pixel(body, size, got, i);
      } else if i < at {
        NotYet(buffer, body, size, got, i);
      }
    }
  }

  /** Nothing past the end of the buffer has arrived. */
  lemma {:induction false} NotYet(buffer: seq<Byte>, body: seq<Byte>, size: nat, got: set<nat>, i: nat)
    requires size > 0 && IsPicture(buffer, body, size, got) && |buffer| <= i < |body|
    ensures i / size !in got
  {
  }

  /** The buffer depends only on which blocks arrived. */
  lemma {:induction false} PictureIsUnique(a: seq<Byte>, b: seq<Byte>, body: seq<Byte>, size: nat, got: set<nat>)
    requires size > 0 && IsPicture(a, body, size, got) && IsPicture(b, body, size, got)
    ensures a == b
  {
  }

  /** Once every block has arrived the buffer is the body. */
  lemma {:induction false} CompletePicture(buffer: seq<Byte>, body: seq<Byte>, size: nat, got: set<nat>)
    requires size > 0 && IsPicture(buffer, body, size, got)
    requires forall num: nat :: IsBlock(body, size, num) ==> num in got
    ensures buffer == body
  {
    if body != [] {
      LastBlock(body, size);
      forall i | 0 <= i < |buffer| ensures buffer[i] == body[i] {
        BlockOfIndex(i, size, i / size);
        assert IsBlock(body, size, i / size);
        assert buffer[i] == Pixel(body, size, got, i);
      }
    }
  }

  lemma {:induction false} LastBlock(body: seq<Byte>, size: nat)
    requires size > 0 && body != []
    ensures IsBlock(body, size, (|body| - 1) / size) && ChunkEnd(body, size, (|body| - 1) / size) == |body|
  {
  }
}
