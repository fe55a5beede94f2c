/**
 The packet layer of the GDB remote stub (gdbstub.c): the encoder, the byte-at-a-time parser, and why
 they fit together.  The protocol is the GDB Remote Serial Protocol, Appendix E of "Debugging with GDB".
 */
module GdbPacket {

  type Byte = x: int | 0 <= x < 256

  const MAX_PACKET_LENGTH: nat := 4096

  const DOLLAR: Byte := 36
  const HASH: Byte := 35
  const STAR: Byte := 42
  const BRACE: Byte := 125
  const SPACE: Byte := 32
  const PLUS: Byte := 43
  const MINUS: Byte := 45

  // --- Hex digits ---

  /** fromhex */
  function FromHex(v: Byte): (r: int)
    ensures 0 <= r < 16
  {
    if 48 <= v <= 57 then v - 48
    else if 65 <= v <= 70 then v - 65 + 10
    else if 97 <= v <= 102 then v - 97 + 10
    else 0
  }

  /** tohex */
  function ToHex(v: int): Byte
    requires 0 <= v < 16
  {
    if v < 10 then v + 48 else v - 10 + 97
  }

  /** isxdigit */
  predicate IsHexDigit(v: Byte) {
    48 <= v <= 57 || 65 <= v <= 70 || 97 <= v <= 102
  }

  lemma HexRoundTrip(v: int)
    requires 0 <= v < 16
    ensures IsHexDigit(ToHex(v)) && FromHex(ToHex(v)) == v
  {
  }

  function HexOf(mem: seq<Byte>): seq<Byte> {
    if mem == [] then [] else HexOf(mem[..|mem| - 1]) + [ToHex(mem[|mem| - 1] / 16), ToHex(mem[|mem| - 1] % 16)]
  }

  /** memtohex, which ends its text with a zero byte */
  method MemToHex(mem: seq<Byte>) returns (buf: seq<Byte>)
    ensures buf == HexOf(mem) + [0]
  {
    buf := [];
    for i := 0 to |mem|
      invariant buf == HexOf(mem[..i])
    {
      assert mem[..i + 1][..i] == mem[..i];
      buf := buf + [ToHex(mem[i] / 16)];
      buf := buf + [ToHex(mem[i] % 16)];
    }
    assert mem[..|mem|] == mem;
    buf := buf + [0];
  }

  /** hextomem: the inverse of memtohex on what memtohex writes. */
  method HexToMem(buf: seq<Byte>, len: nat) returns (mem: seq<Byte>)
    requires 2 * len <= |buf|
    ensures |mem| == len && forall i :: 0 <= i < len ==> mem[i] == 16 * FromHex(buf[2 * i]) + FromHex(buf[2 * i + 1])
  {
    mem := [];
    for i := 0 to len
      invariant |mem| == i && forall k :: 0 <= k < i ==> mem[k] == 16 * FromHex(buf[2 * k]) + FromHex(buf[2 * k + 1])
    {
      mem := mem + [16 * FromHex(buf[2 * i]) + FromHex(buf[2 * i + 1])];
    }
  }

  lemma {:induction false} HexOfAt(mem: seq<Byte>, i: nat)
    requires i < |mem|
    ensures |HexOf(mem)| == 2 * |mem| && HexOf(mem)[2 * i] == ToHex(mem[i] / 16)
    ensures HexOf(mem)[2 * i + 1] == ToHex(mem[i] % 16)
    decreases |mem|
  {
    var front := mem[..|mem| - 1];
    if front != [] {
      HexOfAt(front, if i < |front| then i else 0);
    }
  }

  /** Decoding a hex text gives back the memory it was made from. */
  method HexThereAndBack(mem: seq<Byte>) returns (again: seq<Byte>)
    ensures again == mem
  {
    var buf := MemToHex(mem);
    forall i | 0 <= i < |mem|
      ensures |buf| == 2 * |mem| + 1 && buf[2 * i] == ToHex(mem[i] / 16) && buf[2 * i + 1] == ToHex(mem[i] % 16)
    {
      HexOfAt(mem, i);
    }
    again := HexToMem(buf, |mem|);
    forall i | 0 <= i < |mem| ensures again[i] == mem[i] {
      HexRoundTrip(mem[i] / 16);
      HexRoundTrip(mem[i] % 16);
    }
  }

  // --- The encoder ---

  /** Exclusive or with 0x20. */
  function Flip(b: Byte): Byte {
    if (b / 32) % 2 == 1 then b - 32 else b + 32
  }

  lemma FlipTwice(b: Byte)
    ensures Flip(Flip(b)) == b
  {
  }

  /** It is the sixth bit, and no other, that changes. */
  lemma FlipChangesOneBit(b: Byte)
    ensures Flip(b) != b && Flip(b) / 64 == b / 64 && Flip(b) % 32 == b % 32
  {
  }

  predicate NeedsEscape(b: Byte) {
    b == HASH || b == DOLLAR || b == STAR || b == BRACE
  }

  function XOf(data: seq<Byte>): seq<Byte> {
    if data == [] then []
    else
      var last := data[|data| - 1];
      XOf(data[..|data| - 1]) + if NeedsEscape(last) then [BRACE, Flip(last)] else [last]
  }

  /** memtox */
  method MemToX(data: seq<Byte>) returns (buf: seq<Byte>)
    ensures buf == XOf(data)
  {
    buf := [];
    for i := 0 to |data|
      invariant buf == XOf(data[..i])
    {
      assert data[..i + 1][..i] == data[..i];
      if NeedsEscape(data[i]) {
        buf := buf + [BRACE, Flip(data[i])];
      } else {
        buf := buf + [data[i]];
      }
    }
    assert data[..|data|] == data;
  }

  lemma XOfOne(b: Byte)
    ensures XOf([b]) == if NeedsEscape(b) then [BRACE, Flip(b)] else [b]
  {
    assert [b][..0] == [];
    assert XOf([]) == [];
  }

  /** The escapes, byte by byte: 0x7d and the byte with its sixth bit changed. */
  lemma EscapesByValue()
    ensures XOf([35]) == [125, 3] && XOf([36]) == [125, 4] && XOf([42]) == [125, 10] && XOf([125]) == [125, 93]
    ensures forall b: Byte :: b != 35 && b != 36 && b != 42 && b != 125 ==> XOf([b]) == [b]
  {
    XOfOne(35);
    XOfOne(36);
    XOfOne(42);
    XOfOne(125);
    forall b: Byte | b != 35 && b != 36 && b != 42 && b != 125 ensures XOf([b]) == [b] {
      XOfOne(b);
    }
  }

  /** Both cases of hex digits, by value. */
  lemma DigitsByValue(v: Byte)
    ensures IsHexDigit(v) <==> (v as char) in "0123456789abcdefABCDEF"
    ensures 48 <= v <= 57 ==> FromHex(v) == v - 48
    ensures 97 <= v <= 102 ==> FromHex(v) == v - 87 && FromHex(v - 32) == v - 87
  {
  }

  function Sum(s: seq<Byte>): nat {
    if s == [] then 0 else Sum(s[..|s| - 1]) + s[|s| - 1]
  }

  lemma SumSnoc(s: seq<Byte>, b: Byte)
    ensures Sum(s + [b]) == Sum(s) + b
  {
    assert (s + [b])[..|s|] == s;
  }

  /** A byte as the plain char it is in the encoder. */
  function Signed(b: Byte): int {
    if b < 128 then b else b - 256
  }

  /** The frame around a packet. */
  function Frame(body: seq<Byte>): seq<Byte> {
    [DOLLAR] + body + [HASH, ToHex(Sum(body) % 256 / 16), ToHex(Sum(body) % 16)]
  }

  /** The packet that put_packet_binary sends; its checksum is added up over signed chars. */
  method PutPacketBinary(body: seq<Byte>) returns (packet: seq<Byte>)
    ensures packet == Frame(body)
  {
    packet := [DOLLAR];
    packet := packet + body;
    var csum: int := 0;
    for i := 0 to |body|
      invariant (csum - Sum(body[..i])) % 256 == 0
    {
      assert body[..i + 1][..i] == body[..i];
      csum := csum + Signed(body[i]);
    }
    assert body[..|body|] == body;
    LowByte(csum, Sum(body));
    packet := packet + [HASH, ToHex(csum / 16 % 16), ToHex(csum % 16)];
  }

  /** Numbers that differ by a multiple of 256 have the same low hex digits. */
  lemma LowByte(c: int, s: nat)
    requires (c - s) % 256 == 0
    ensures c / 16 % 16 == s % 256 / 16 && c % 16 == s % 16
  {
    var k, q, r := (c - s) / 256, s / 256, s % 256;
    var hi, lo := r / 16, r % 16;
    assert s == 256 * q + 16 * hi + lo && c == 256 * (q + k) + 16 * hi + lo;
    assert c / 16 == 16 * (q + k) + hi && s / 16 == 16 * q + hi;
  }

  /** A frame byte by byte: the reply OK. */
  lemma FrameByValue()
    ensures Frame([79, 75]) == [36, 79, 75, 35, 57, 97]
  {
    SumSnoc([], 79);
    SumSnoc([79], 75);
    assert [] + [79] == [79] && [79] + [75] == [79, 75];
  }

  // --- The parser ---

  datatype RsState = Idle | GetLine | GetLineEsc | GetLineRle | Chksum1 | Chksum2

  datatype Reply = Silent | Nak | Ack(packet: seq<Byte>)

  /** The parser fields of gdbserver_state; the buffer is the part of line_buf in use. */
  datatype Parser = Parser(state: RsState, buf: seq<Byte>, sum: nat, csum: nat)

  function Repeat(b: Byte, n: nat): seq<Byte> {
    seq(n, i => b)
  }

  /** What one byte does, as gdb_read_byte dispatches on the parsing state. */
  function Step(p: Parser, ch: Byte): (Parser, Reply) {
    match p.state
    case Idle =>
      if ch == DOLLAR then (p.(state := GetLine, buf := [], sum := 0), Silent) else (p, Silent)
    case GetLine =>
      if ch == BRACE then (p.(state := GetLineEsc, sum := p.sum + ch), Silent)
      else if ch == STAR then (p.(state := GetLineRle, sum := p.sum + ch), Silent)
      else if ch == HASH then (p.(state := Chksum1), Silent)
      else if |p.buf| >= MAX_PACKET_LENGTH - 1 then (p.(state := Idle), Silent)
      else (p.(buf := p.buf + [ch], sum := p.sum + ch), Silent)
    case GetLineEsc =>
      if ch == HASH then (p.(state := Chksum1), Silent)
      else if |p.buf| >= MAX_PACKET_LENGTH - 1 then (p.(state := Idle), Silent)
      else (p.(state := GetLine, buf := p.buf + [Flip(ch)], sum := p.sum + ch), Silent)
    case GetLineRle =>
      if ch < SPACE || ch == HASH || ch == DOLLAR || ch > 126 then (p.(state := GetLine), Silent)
      else if |p.buf| + (ch - SPACE + 3) >= MAX_PACKET_LENGTH - 1 then (p.(state := Idle), Silent)
      else if |p.buf| < 1 then (p.(state := GetLine), Silent)
      else (p.(state := GetLine, buf := p.buf + Repeat(p.buf[|p.buf| - 1], ch - SPACE + 3), sum := p.sum + ch), Silent)
    case Chksum1 =>
      if !IsHexDigit(ch) then (p.(state := GetLine), Silent)
      else (p.(state := Chksum2, csum := 16 * FromHex(ch)), Silent)
    case Chksum2 =>
      if !IsHexDigit(ch) then (p.(state := GetLine), Silent)
      else
        var csum := p.csum + FromHex(ch);
        if csum != p.sum % 256 then (p.(state := Idle, csum := csum), Nak)
        else (p.(state := Idle, csum := csum), Ack(p.buf))
  }

  /** The replies to a stream of bytes, in order, without the silent ones. */
  function Feed(p: Parser, s: seq<Byte>): (Parser, seq<Reply>)
    decreases |s|
  {
    if s == [] then (p, [])
    else
      var (q, rs) := Feed(p, s[..|s| - 1]);
      var (r, reply) := Step(q, s[|s| - 1]);
      (r, if reply.Silent? then rs else rs + [reply])
  }

  predicate Fits(p: Parser) {
    |p.buf| <= MAX_PACKET_LENGTH - 1 && p.csum <= 255 && (p.state.Chksum2? ==> p.csum % 16 == 0 && p.csum <= 240)
  }

  lemma StepFits(p: Parser, ch: Byte)
    requires Fits(p)
    ensures Fits(Step(p, ch).0)
  {
  }

  /** Over every stream of bytes the buffer index stays within the buffer. */
  lemma {:induction false} NeverOverruns(p: Parser, s: seq<Byte>)
    requires Fits(p)
    ensures Fits(Feed(p, s).0)
    decreases |s|
  {
    if s != [] {
      NeverOverruns(p, s[..|s| - 1]);
      StepFits(Feed(p, s[..|s| - 1]).0, s[|s| - 1]);
    }
  }
}
