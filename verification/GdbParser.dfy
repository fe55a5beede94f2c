/**
 Theorems about the packet parser of the GDB stub, and the parser in place on its buffer.
 */
module GdbParser {
  import opened GdbPacket

  // --- gdb_read_byte on its buffer ---

  class Stub {
    var state: RsState
    const lineBuf: array<Byte>
    var index: nat
    var sum: nat
    var csum: nat

    constructor ()
      ensures Valid() && fresh(lineBuf) && Now() == Parser(Idle, [], 0, 0)
    {
      state, index, sum, csum := Idle, 0, 0, 0;
      lineBuf := new Byte[MAX_PACKET_LENGTH];
    }

    /** The index stays in the buffer; from the first digit of the checksum on, the text is terminated. */
    ghost predicate Valid()
      reads this, lineBuf
    {
      && lineBuf.Length == MAX_PACKET_LENGTH && index <= MAX_PACKET_LENGTH - 1
      && (state.Chksum2? ==> lineBuf[index] == 0)
    }

    ghost function Now(): Parser
      requires Valid()
      reads this, lineBuf
    {
      Parser(state, lineBuf[..index], sum, csum)
    }

    /** memset of a part of the buffer */
    method Fill(b: Byte, n: nat)
      requires Valid() && index + n <= MAX_PACKET_LENGTH
      modifies lineBuf
      ensures lineBuf[..index + n] == old(lineBuf[..index]) + Repeat(b, n)
    {
      for i := 0 to n
        invariant lineBuf[..index] == old(lineBuf[..index])
        invariant forall k :: index <= k < index + i ==> lineBuf[k] == b
      {
        lineBuf[index + i] := b;
      }
      assert lineBuf[..index + n] == lineBuf[..index] + lineBuf[index..index + n];
    }

    method Append(b: Byte)
      requires Valid() && index < MAX_PACKET_LENGTH - 1 && !state.Chksum2?
      modifies this`index, lineBuf
      ensures Valid() && lineBuf[..index] == old(lineBuf[..index]) + [b] && index == old(index) + 1
    {
      lineBuf[index] := b;
      index := index + 1;
    }

    /** gdb_read_byte in the states that collect the packet. */
    method Collect(ch: Byte)
      requires Valid() && (state.GetLine? || state.GetLineEsc? || state.GetLineRle?)
      modifies this, lineBuf
      ensures Valid() && (Now(), Silent) == Step(old(Now()), ch)
    {
      if state.GetLine? {
        if ch == BRACE {
          state, sum := GetLineEsc, sum + ch;
        } else if ch == STAR {
          state, sum := GetLineRle, sum + ch;
        } else if ch == HASH {
          state := Chksum1;
        } else if index >= lineBuf.Length - 1 {
          state := Idle;
        } else {
          Append(ch);
          sum := sum + ch;
        }
      } else if state.GetLineEsc? {
        if ch == HASH {
          state := Chksum1;
        } else if index >= lineBuf.Length - 1 {
          state := Idle;
        } else {
          Append(Flip(ch));
          state, sum := GetLine, sum + ch;
        }
      } else {
        CollectRun(ch);
      }
    }

    /** gdb_read_byte in the state for run lengths. */
    method CollectRun(ch: Byte)
      requires Valid() && state.GetLineRle?
      modifies this, lineBuf
      ensures Valid() && (Now(), Silent) == Step(old(Now()), ch)
    {
      if ch < SPACE || ch == HASH || ch == DOLLAR || ch > 126 {
        state := GetLine;
      } else {
        var repeat := ch - SPACE + 3;
        if index + repeat >= lineBuf.Length - 1 {
          state := Idle;
        } else if index < 1 {
          state := GetLine;
        } else {
          Fill(lineBuf[index - 1], repeat);
          index := index + repeat;
          state, sum := GetLine, sum + ch;
        }
      }
    }

    /** gdb_read_byte after the end of the packet; an accepted packet is handed over. */
    method Check(ch: Byte) returns (reply: Reply)
      requires Valid() && Fits(Now()) && (state.Chksum1? || state.Chksum2?)
      modifies this, lineBuf
      ensures Valid() && (Now(), reply) == Step(old(Now()), ch)
      ensures reply.Ack? ==> reply.packet == lineBuf[..index] && lineBuf[index] == 0
    {
      reply := Silent;
      if !IsHexDigit(ch) {
        state := GetLine;
      } else if state.Chksum1? {
        lineBuf[index] := 0;
        csum := 16 * FromHex(ch);
        state := Chksum2;
      } else {
        csum := csum + FromHex(ch);
        state := Idle;
        if csum != sum % 256 {
          reply := Nak;
        } else {
          reply := Ack(lineBuf[..index]);
        }
      }
    }

    /** gdb_read_byte: never outside the buffer, and as the parser function says; a packet is handed over terminated. */
    method ReadByte(ch: Byte) returns (reply: Reply)
      requires Valid() && Fits(Now())
      modifies this, lineBuf
      ensures Valid() && Fits(Now()) && (Now(), reply) == Step(old(Now()), ch)
      ensures reply.Ack? ==> reply.packet == lineBuf[..index] && lineBuf[index] == 0
    {
      StepFits(Now(), ch);
      if state.Idle? {
        reply := Silent;
        if ch == DOLLAR {
          index, sum := 0, 0;
          state := GetLine;
        }
      } else if state.Chksum1? || state.Chksum2? {
        reply := Check(ch);
      } else {
        Collect(ch);
        reply := Silent;
      }
    }
  }

  // --- Feeding in pieces ---

  lemma {:induction false} FeedAppend(p: Parser, a: seq<Byte>, b: seq<Byte>)
    ensures Feed(p, a + b).0 == Feed(Feed(p, a).0, b).0
    ensures Feed(p, a + b).1 == Feed(p, a).1 + Feed(Feed(p, a).0, b).1
    decreases |b|
  {
    if b == [] {
      assert a + b == a;
    } else {
      var front := b[..|b| - 1];
      FeedAppend(p, a, front);
      assert (a + b)[..|a + b| - 1] == a + front && (a + b)[|a + b| - 1] == b[|b| - 1];
    }
  }

  lemma FeedOne(p: Parser, b: Byte)
    ensures Feed(p, [b]).0 == Step(p, b).0
    ensures Feed(p, [b]).1 == if Step(p, b).1.Silent? then [] else [Step(p, b).1]
  {
    assert [b][..0] == [];
    assert Feed(p, []) == (p, []);
  }

  // --- Accepted packets ---

  /** The byte enters the sum: part of the packet, but neither its end mark nor a bad run length. */
  predicate Counts(q: Parser, ch: Byte) {
    match q.state
    case GetLine => ch != HASH
    case GetLineEsc => ch != HASH
    case GetLineRle => SPACE <= ch <= 126 && ch != HASH && ch != DOLLAR && q.buf != []
    case _ => false
  }

  /** The byte ends the packet. */
  predicate IsEndMark(q: Parser, ch: Byte) {
    ch == HASH && (q.state.GetLine? || q.state.GetLineEsc?)
  }

  /** The parser was not idle after the first n bytes. */
  ghost predicate Busy(p: Parser, s: seq<Byte>, n: nat) {
    n <= |s| && !Feed(p, s[..n]).0.state.Idle?
  }

  /** The packet that the parser is in was begun by the k-th byte. */
  ghost predicate Began(p: Parser, s: seq<Byte>, k: nat) {
    && k < |s| && s[k] == DOLLAR && Feed(p, s[..k]).0.state.Idle?
    && forall n: nat :: k < n <= |s| ==> Busy(p, s, n)
  }

  /** The bytes after the k-th that count. */
  ghost function Counted(p: Parser, s: seq<Byte>, k: nat): seq<Byte>
    requires k < |s|
    decreases |s|
  {
    if |s| == k + 1 then []
    else
      var front, ch := s[..|s| - 1], s[|s| - 1];
      Counted(p, front, k) + if Counts(Feed(p, front).0, ch) then [ch] else []
  }

  /** One byte inside a packet adds to the sum exactly when it counts. */
  lemma SumStep(q: Parser, ch: Byte)
    requires !q.state.Idle? && !Step(q, ch).0.state.Idle?
    ensures Step(q, ch).0.sum == q.sum + if Counts(q, ch) then ch else 0
  {
  }

  lemma BeganLater(p: Parser, s: seq<Byte>, ch: Byte, k: nat)
    requires Began(p, s, k) && !Feed(p, s + [ch]).0.state.Idle?
    ensures Began(p, s + [ch], k)
  {
    assert (s + [ch])[..k] == s[..k];
    forall n: nat | k < n <= |s + [ch]| ensures Busy(p, s + [ch], n) {
      if n <= |s| {
        assert (s + [ch])[..n] == s[..n] && Busy(p, s, n);
      } else {
        assert (s + [ch])[..n] == s + [ch];
      }
    }
  }

  lemma FeedSnoc(p: Parser, s: seq<Byte>, ch: Byte)
    ensures var q := Feed(p, s).0;
      && Feed(p, s + [ch]).0 == Step(q, ch).0
      && Feed(p, s + [ch]).1 == Feed(p, s).1 + if Step(q, ch).1.Silent? then [] else [Step(q, ch).1]
  {
    FeedAppend(p, s, [ch]);
    FeedOne(Feed(p, s).0, ch);
  }

  lemma CountedSnoc(p: Parser, s: seq<Byte>, ch: Byte, k: nat)
    requires k < |s|
    ensures Sum(Counted(p, s + [ch], k)) == Sum(Counted(p, s, k)) + if Counts(Feed(p, s).0, ch) then ch else 0
  {
    var before := Counted(p, s, k);
    assert (s + [ch])[..|s|] == s;
    SumSnoc(before, ch);
    assert before + [] == before;
  }

  /** Inside a packet, the sum is that of the bytes that count since the packet began. */
  lemma {:induction false} SumOfPacket(p: Parser, s: seq<Byte>) returns (k: nat)
    requires p.state.Idle? && !Feed(p, s).0.state.Idle?
    ensures Began(p, s, k) && Feed(p, s).0.sum == Sum(Counted(p, s, k))
    decreases |s|
  {
    var front, ch := s[..|s| - 1], s[|s| - 1];
    assert s == front + [ch];
    FeedSnoc(p, front, ch);
    if Feed(p, front).0.state.Idle? {
      k := |front|;
      assert s[..k] == front && s[..k + 1] == s;
    } else {
      k := SumOfPacket(p, front);
      BeganLater(p, front, ch, k);
      SumStep(Feed(p, front).0, ch);
      CountedSnoc(p, front, ch, k);
    }
  }

  /** After an end mark and one digit, the parser holds that digit and waits for the second. */
  lemma DigitsCome(p: Parser, s: seq<Byte>)
    requires p.state.Idle?
    ensures Feed(p, s).0.state.Chksum2? <==>
      |s| >= 2 && IsEndMark(Feed(p, s[..|s| - 2]).0, s[|s| - 2]) && IsHexDigit(s[|s| - 1])
    ensures Feed(p, s).0.state.Chksum2? ==> Feed(p, s).0.csum == 16 * FromHex(s[|s| - 1])
  {
    if s != [] {
      var front := s[..|s| - 1];
      DigitStep(Feed(p, front).0, s[|s| - 1]);
      if front != [] {
        assert front[..|s| - 2] == s[..|s| - 2];
        DigitStep(Feed(p, front[..|s| - 2]).0, front[|s| - 2]);
      }
    }
  }

  lemma DigitStep(q: Parser, ch: Byte)
    ensures Step(q, ch).0.state.Chksum1? <==> IsEndMark(q, ch)
    ensures Step(q, ch).0.state.Chksum2? <==> q.state.Chksum1? && IsHexDigit(ch)
    ensures Step(q, ch).0.state.Chksum2? ==> Step(q, ch).0.csum == 16 * FromHex(ch)
  {
  }

  /** A stream that ends with a packet begun at k, its end mark and two digits that agree with the sum. */
  ghost predicate EndsWell(p: Parser, s: seq<Byte>, k: nat) {
    var n := |s|;
    && n >= 3 && Began(p, s[..n - 1], k) && IsEndMark(Feed(p, s[..n - 3]).0, s[n - 3])
    && IsHexDigit(s[n - 2]) && IsHexDigit(s[n - 1])
    && 16 * FromHex(s[n - 2]) + FromHex(s[n - 1]) == Sum(Counted(p, s[..n - 1], k)) % 256
  }

  /** The packet that the last byte of a stream completed. */
  ghost predicate Accepts(p: Parser, s: seq<Byte>, packet: seq<Byte>) {
    s != [] && Feed(p, s).1 == Feed(p, s[..|s| - 1]).1 + [Ack(packet)]
  }

  /**
   Over every stream: a byte is answered with an ACK if and only if it completes a packet that an idle
   parser saw begin with a DOLLAR, closed by an end mark and two hex digits, whose value is the sum, modulo
   256, of the bytes that count.  What is handed over is what was collected, never more than 4095 bytes.
   */
  lemma AckOnlyOnChecksum(p: Parser, s: seq<Byte>)
    requires p.state.Idle? && Fits(p)
    ensures (exists packet :: Accepts(p, s, packet)) <==> (exists k: nat :: EndsWell(p, s, k))
    ensures forall packet :: Accepts(p, s, packet) ==>
      packet == Feed(p, s[..|s| - 1]).0.buf && |packet| <= MAX_PACKET_LENGTH - 1
  {
    forall packet | Accepts(p, s, packet)
      ensures (exists k: nat :: EndsWell(p, s, k)) && packet == Feed(p, s[..|s| - 1]).0.buf
      ensures |packet| <= MAX_PACKET_LENGTH - 1
    {
      AcceptsIff(p, s, packet);
      EndsWellIf(p, s);
      NeverOverruns(p, s[..|s| - 1]);
    }
    forall k: nat | EndsWell(p, s, k) ensures exists packet :: Accepts(p, s, packet) {
      OnlyIfEndsWell(p, s, k);
      AcceptsIff(p, s, Feed(p, s[..|s| - 1]).0.buf);
    }
  }

  lemma AcceptsIff(p: Parser, s: seq<Byte>, packet: seq<Byte>)
    requires s != []
    ensures Accepts(p, s, packet) <==>
      Feed(p, s[..|s| - 1]).0.buf == packet && Step(Feed(p, s[..|s| - 1]).0, s[|s| - 1]).1.Ack?
  {
    var front, ch := s[..|s| - 1], s[|s| - 1];
    assert s == front + [ch];
    FeedSnoc(p, front, ch);
    AckStep(Feed(p, front).0, ch);
    SnocOne(Feed(p, front).1, Step(Feed(p, front).0, ch).1, Ack(packet));
  }

  lemma SnocOne(rs: seq<Reply>, a: Reply, b: Reply)
    ensures rs + [a] == rs + [b] <==> a == b
    ensures rs + [] != rs + [b]
  {
    if rs + [a] == rs + [b] {
      assert (rs + [a])[|rs|] == (rs + [b])[|rs|];
    }
  }

  lemma AckStep(q: Parser, ch: Byte)
    ensures Step(q, ch).1.Ack? <==> q.state.Chksum2? && IsHexDigit(ch) && q.csum + FromHex(ch) == q.sum % 256
    ensures Step(q, ch).1.Ack? ==> Step(q, ch).1.packet == q.buf
  {
  }

  lemma EndsWellIf(p: Parser, s: seq<Byte>)
    requires p.state.Idle? && s != [] && Step(Feed(p, s[..|s| - 1]).0, s[|s| - 1]).1.Ack?
    ensures exists k: nat :: EndsWell(p, s, k)
  {
    var front := s[..|s| - 1];
    AckStep(Feed(p, front).0, s[|s| - 1]);
    DigitsCome(p, front);
    assert front[..|s| - 3] == s[..|s| - 3];
    var k := SumOfPacket(p, front);
    assert EndsWell(p, s, k);
  }

  lemma BeganBusy(p: Parser, s: seq<Byte>, k: nat, n: nat)
    requires Began(p, s, k) && k < n <= |s|
    ensures Busy(p, s, n)
  {
  }

  lemma BeganOnce(p: Parser, s: seq<Byte>, i: nat, k: nat)
    requires Began(p, s, i) && Began(p, s, k)
    ensures i == k
  {
    if i < k {
      BeganBusy(p, s, i, k);
    } else if k < i {
      BeganBusy(p, s, k, i);
    }
  }

  lemma OnlyIfEndsWell(p: Parser, s: seq<Byte>, k: nat)
    requires p.state.Idle? && EndsWell(p, s, k)
    ensures Step(Feed(p, s[..|s| - 1]).0, s[|s| - 1]).1.Ack?
  {
    var front := s[..|s| - 1];
    assert front[..|s| - 3] == s[..|s| - 3];
    DigitsCome(p, front);
    var i := SumOfPacket(p, front);
    BeganOnce(p, front, i, k);
    AckStep(Feed(p, front).0, s[|s| - 1]);
  }

  // --- Packets made of tokens ---

  /** The units a packet consists of, by the byte that is sent. */
  datatype Token = Lit(raw: Byte) | Esc(raw: Byte) | Run(raw: Byte)

  /** A token that stands for itself: no control characters where they would end or restart a packet. */
  predicate ValidToken(t: Token) {
    match t
    case Lit(c) => c != BRACE && c != STAR && c != HASH && c != DOLLAR
    case Esc(c) => c != HASH && c != DOLLAR
    case Run(c) => SPACE <= c <= 126 && c != HASH && c != DOLLAR
  }

  function Bytes(t: Token): seq<Byte> {
    match t
    case Lit(c) => [c]
    case Esc(c) => [BRACE, c]
    case Run(c) => [STAR, c]
  }

  function AllBytes(ts: seq<Token>): seq<Byte> {
    if ts == [] then [] else AllBytes(ts[..|ts| - 1]) + Bytes(ts[|ts| - 1])
  }

  /** What a token adds to the packet. */
  function Adds(data: seq<Byte>, t: Token): seq<Byte> {
    match t
    case Lit(c) => [c]
    case Esc(c) => [Flip(c)]
    case Run(c) => if data == [] || c < SPACE then [] else Repeat(data[|data| - 1], c - SPACE + 3)
  }

  /** The packet that tokens stand for. */
  function Meaning(ts: seq<Token>): seq<Byte> {
    if ts == [] then [] else Meaning(ts[..|ts| - 1]) + Adds(Meaning(ts[..|ts| - 1]), ts[|ts| - 1])
  }

  /** There is room for a token: a run must leave one byte more free than other tokens need. */
  predicate Room(data: seq<Byte>, t: Token) {
    match t
    case Lit(_) => |data| < MAX_PACKET_LENGTH - 1
    case Esc(_) => |data| < MAX_PACKET_LENGTH - 1
    case Run(c) => |data| + (c - SPACE + 3) < MAX_PACKET_LENGTH - 1
  }

  predicate AllRoom(ts: seq<Token>) {
    ts == [] || (AllRoom(ts[..|ts| - 1]) && Room(Meaning(ts[..|ts| - 1]), ts[|ts| - 1]))
  }

  /** Valid tokens, and no run before there is something to repeat. */
  predicate ValidTokens(ts: seq<Token>) {
    ts == [] || (ValidTokens(ts[..|ts| - 1]) && ValidToken(ts[|ts| - 1])
      && (ts[|ts| - 1].Run? ==> Meaning(ts[..|ts| - 1]) != []))
  }

  lemma SumAppend(a: seq<Byte>, b: seq<Byte>)
    ensures Sum(a + b) == Sum(a) + Sum(b)
    decreases |b|
  {
    if b == [] {
      assert a + b == a;
    } else {
      assert (a + b)[..|a + b| - 1] == a + b[..|b| - 1];
      SumAppend(a, b[..|b| - 1]);
    }
  }

  lemma SumOfToken(t: Token)
    ensures Sum(Bytes(t)) == match t case Lit(c) => c as int case Esc(c) => BRACE + c case Run(c) => STAR + c
  {
    match t
    case Lit(c) => SumPair([], c);
    case Esc(c) => SumPair([BRACE], c);
    case Run(c) => SumPair([STAR], c);
  }

  lemma SumPair(a: seq<Byte>, c: Byte)
    requires |a| <= 1
    ensures Sum(a + [c]) == (if a == [] then 0 else a[0]) + c
  {
    SumSnoc(a, c);
    if a != [] {
      SumSnoc([], a[0]);
      assert [] + [a[0]] == a;
    }
  }

  lemma FeedTwo(p: Parser, a: Byte, b: Byte)
    requires Step(p, a).1.Silent? && Step(Step(p, a).0, b).1.Silent?
    ensures Feed(p, [a, b]) == (Step(Step(p, a).0, b).0, [])
  {
    FeedOne(p, a);
    FeedOne(Step(p, a).0, b);
    FeedAppend(p, [a], [b]);
    assert [a] + [b] == [a, b];
  }

  /** One token moves the parser on, or out of the packet when there is no room. */
  lemma TokenStep(p: Parser, t: Token)
    requires p.state.GetLine? && ValidToken(t) && (t.Run? ==> p.buf != [])
    ensures Feed(p, Bytes(t)).1 == []
    ensures Room(p.buf, t) ==> Feed(p, Bytes(t)).0 == p.(buf := p.buf + Adds(p.buf, t), sum := p.sum + Sum(Bytes(t)))
    ensures !Room(p.buf, t) ==> Feed(p, Bytes(t)).0.state.Idle?
  {
    SumOfToken(t);
    match t
    case Lit(c) => FeedOne(p, c);
    case Esc(c) => FeedTwo(p, BRACE, c);
    case Run(c) => FeedTwo(p, STAR, c);
  }

  /** An idle parser sleeps through everything but the start of a packet. */
  lemma {:induction false} IdleSleeps(p: Parser, s: seq<Byte>)
    requires p.state.Idle? && DOLLAR !in s
    ensures Feed(p, s) == (p, [])
    decreases |s|
  {
    if s != [] {
      IdleSleeps(p, s[..|s| - 1]);
    }
  }

  /** The body of a packet: collected completely if there is room, otherwise abandoned. */
  lemma {:induction false} BodyStep(p: Parser, ts: seq<Token>)
    requires p.state.GetLine? && p.buf == [] && p.sum == 0 && ValidTokens(ts)
    ensures Feed(p, AllBytes(ts)).1 == []
    ensures AllRoom(ts) ==> Feed(p, AllBytes(ts)).0 == p.(buf := Meaning(ts), sum := Sum(AllBytes(ts)))
    ensures !AllRoom(ts) ==> Feed(p, AllBytes(ts)).0.state.Idle?
  {
    if ts != [] {
      var front, t := ts[..|ts| - 1], ts[|ts| - 1];
      BodyStep(p, front);
      FeedAppend(p, AllBytes(front), Bytes(t));
      var q := Feed(p, AllBytes(front)).0;
      if AllRoom(front) {
        TokenStep(q, t);
        SumAppend(AllBytes(front), Bytes(t));
      } else {
        assert DOLLAR !in Bytes(t);
        IdleSleeps(q, Bytes(t));
      }
    }
  }

  /** The bytes after the body: the end mark and two checksum digits. */
  lemma EndStep(p: Parser, hi: Byte, lo: Byte)
    requires p.state.GetLine? && IsHexDigit(hi) && IsHexDigit(lo)
    ensures var r := Feed(p, [HASH, hi, lo]);
      && r.0.state.Idle?
      && r.1 == [if 16 * FromHex(hi) + FromHex(lo) == p.sum % 256 then Ack(p.buf) else Nak]
  {
    var p1 := Step(p, HASH).0;
    var p2 := Step(p1, hi).0;
    FeedOne(p, HASH);
    FeedOne(p1, hi);
    FeedOne(p2, lo);
    FeedAppend(p, [HASH], [hi]);
    FeedAppend(p, [HASH] + [hi], [lo]);
    assert [HASH] + [hi] + [lo] == [HASH, hi, lo];
  }

  /**
   A framed packet of tokens, fed to an idle parser: if it fits it is answered, with an ACK and its
   meaning exactly when the checksum agrees; if not, it is dropped without an answer.
   */
  lemma PacketIsParsed(p: Parser, ts: seq<Token>, hi: Byte, lo: Byte)
    requires p.state.Idle? && ValidTokens(ts) && IsHexDigit(hi) && IsHexDigit(lo)
    ensures var r := Feed(p, [DOLLAR] + AllBytes(ts) + [HASH, hi, lo]);
      && r.0.state.Idle?
      && r.1 == if !AllRoom(ts) then []
                else if 16 * FromHex(hi) + FromHex(lo) == Sum(AllBytes(ts)) % 256 then [Ack(Meaning(ts))]
                else [Nak]
  {
    var body, tail := AllBytes(ts), [HASH, hi, lo];
    var p1 := Step(p, DOLLAR).0;
    FeedOne(p, DOLLAR);
    BodyStep(p1, ts);
    FeedAppend(p, [DOLLAR], body);
    FeedAppend(p, [DOLLAR] + body, tail);
    var q := Feed(p1, body).0;
    if AllRoom(ts) {
      EndStep(q, hi, lo);
    } else {
      NotDollar(hi);
      NotDollar(lo);
      IdleSleeps(q, tail);
    }
  }

  lemma NotDollar(b: Byte)
    requires IsHexDigit(b)
    ensures b != DOLLAR
  {
  }

  // --- The encoder's packets ---

  /** The token that memtox writes for a byte. */
  function TokenFor(b: Byte): Token {
    if NeedsEscape(b) then Esc(Flip(b)) else Lit(b)
  }

  function TokensOf(data: seq<Byte>): seq<Token> {
    if data == [] then [] else TokensOf(data[..|data| - 1]) + [TokenFor(data[|data| - 1])]
  }

  lemma TokenForWorks(data: seq<Byte>, b: Byte)
    ensures var t := TokenFor(b);
      ValidToken(t) && !t.Run? && Adds(data, t) == [b] && (Room(data, t) <==> |data| < MAX_PACKET_LENGTH - 1)
    ensures Bytes(TokenFor(b)) == if NeedsEscape(b) then [BRACE, Flip(b)] else [b]
  {
    FlipTwice(b);
  }

  lemma Snoc(ts: seq<Token>, t: Token)
    ensures AllBytes(ts + [t]) == AllBytes(ts) + Bytes(t) && Meaning(ts + [t]) == Meaning(ts) + Adds(Meaning(ts), t)
    ensures AllRoom(ts + [t]) <==> AllRoom(ts) && Room(Meaning(ts), t)
    ensures ValidTokens(ts + [t]) <==> ValidTokens(ts) && ValidToken(t) && (t.Run? ==> Meaning(ts) != [])
  {
    assert (ts + [t])[..|ts|] == ts;
  }

  lemma {:induction false} TokensOfWorks(data: seq<Byte>)
    ensures ValidTokens(TokensOf(data)) && AllBytes(TokensOf(data)) == XOf(data) && Meaning(TokensOf(data)) == data
    ensures AllRoom(TokensOf(data)) <==> |data| <= MAX_PACKET_LENGTH - 1
  {
    if data != [] {
      var front, last := data[..|data| - 1], data[|data| - 1];
      TokensOfWorks(front);
      TokenForWorks(front, last);
      Snoc(TokensOf(front), TokenFor(last));
      assert data == front + [last];
    }
  }

  lemma ChecksumDigits(sum: nat)
    ensures IsHexDigit(ToHex(sum % 256 / 16)) && IsHexDigit(ToHex(sum % 16))
    ensures 16 * FromHex(ToHex(sum % 256 / 16)) + FromHex(ToHex(sum % 16)) == sum % 256
  {
    HexRoundTrip(sum % 256 / 16);
    HexRoundTrip(sum % 16);
  }

  /**
   Round trip: what the encoder sends for any data, an idle parser turns back into exactly that data
   and acknowledges, if and only if the data is at most 4095 bytes long.
   */
  lemma RoundTrip(p: Parser, data: seq<Byte>)
    requires p.state.Idle?
    ensures Feed(p, Frame(XOf(data))).0.state.Idle?
    ensures Feed(p, Frame(XOf(data))).1 == if |data| <= MAX_PACKET_LENGTH - 1 then [Ack(data)] else []
  {
    var ts := TokensOf(data);
    TokensOfWorks(data);
    ChecksumDigits(Sum(XOf(data)));
    PacketIsParsed(p, ts, ToHex(Sum(XOf(data)) % 256 / 16), ToHex(Sum(XOf(data)) % 16));
  }

  // --- The limit for runs ---

  /** Every valid token adds something. */
  lemma AddsSomething(data: seq<Byte>, t: Token)
    requires ValidToken(t) && (t.Run? ==> data != [])
    ensures |Adds(data, t)| >= 1 && (t.Run? ==> |Adds(data, t)| == t.raw - SPACE + 3)
  {
  }

  /** What fits: less than 4095 bytes, or 4095 bytes if the last token is not a run. */
  predicate FitsBuffer(ts: seq<Token>) {
    |Meaning(ts)| < MAX_PACKET_LENGTH - 1 || (|Meaning(ts)| == MAX_PACKET_LENGTH - 1 && !ts[|ts| - 1].Run?)
  }

  lemma {:induction false} AllRoomIff(ts: seq<Token>)
    requires ValidTokens(ts)
    ensures AllRoom(ts) <==> FitsBuffer(ts)
  {
    if ts != [] {
      AllRoomIff(ts[..|ts| - 1]);
      AddsSomething(Meaning(ts[..|ts| - 1]), ts[|ts| - 1]);
    }
  }

  /**
   A packet with the right checksum is answered, with its meaning, if and only if the meaning is shorter
   than 4095 bytes, or is 4095 bytes long and does not end in a run.
   */
  lemma AnsweredIff(p: Parser, ts: seq<Token>)
    requires p.state.Idle? && ValidTokens(ts)
    ensures Feed(p, Frame(AllBytes(ts))).0.state.Idle?
    ensures Feed(p, Frame(AllBytes(ts))).1 == if FitsBuffer(ts) then [Ack(Meaning(ts))] else []
  {
    var sum := Sum(AllBytes(ts));
    AllRoomIff(ts);
    ChecksumDigits(sum);
    PacketIsParsed(p, ts, ToHex(sum % 256 / 16), ToHex(sum % 16));
  }

  /** After a part that fits, a run is accepted exactly when it ends before the last usable byte. */
  lemma RunFitsIff(p: Parser, front: seq<Token>, c: Byte)
    requires p.state.Idle? && ValidTokens(front + [Run(c)]) && AllRoom(front)
    ensures Feed(p, Frame(AllBytes(front + [Run(c)]))).1 ==
      if |Meaning(front)| + (c - SPACE + 3) < 4095 then [Ack(Meaning(front + [Run(c)]))] else []
  {
    Snoc(front, Run(c));
    AddsSomething(Meaning(front), Run(c));
    AnsweredIff(p, front + [Run(c)]);
  }

  /** The same 4095 bytes, with a run for the last three. */
  lemma LastThreeAsRun(p: Parser, most: seq<Byte>, all: seq<Byte>)
    requires p.state.Idle? && |most| == 4092 && all == most + Repeat(most[4091], 3)
    ensures var run := TokensOf(most) + [Run(SPACE)];
      Meaning(run) == all && Feed(p, Frame(AllBytes(run))).1 == []
  {
    TokensOfWorks(most);
    Snoc(TokensOf(most), Run(SPACE));
    RunFitsIff(p, TokensOf(most), SPACE);
  }

  lemma OneByOne(p: Parser, all: seq<Byte>)
    requires p.state.Idle? && |all| == 4095
    ensures Meaning(TokensOf(all)) == all && Feed(p, Frame(AllBytes(TokensOf(all)))).1 == [Ack(all)]
  {
    TokensOfWorks(all);
    RoundTrip(p, all);
  }

  /**
   The limit for runs is one byte short: 4095 times the letter a, sent with right checksums.  Sent one by
   one they are acknowledged; with a run for the last three the packet is dropped without an answer.
   */
  lemma RunLimitIsOneShort(p: Parser)
    requires p.state.Idle?
    ensures var one, run := TokensOf(Repeat(97, 4095)), TokensOf(Repeat(97, 4092)) + [Run(SPACE)];
      && Meaning(one) == Meaning(run) == Repeat(97, 4095)
      && Feed(p, Frame(AllBytes(one))).1 == [Ack(Repeat(97, 4095))]
      && Feed(p, Frame(AllBytes(run))).1 == []
  {
    var most, all := Repeat(97, 4092), Repeat(97, 4095);
    assert all == most + Repeat(most[4091], 3);
    OneByOne(p, all);
    LastThreeAsRun(p, most, all);
  }

  // --- Packets byte by byte ---

  lemma FeedThree(p: Parser, a: Byte, b: Byte, c: Byte)
    requires Step(p, a).1.Silent? && Step(Step(p, a).0, b).1.Silent? && Step(Step(Step(p, a).0, b).0, c).1.Silent?
    ensures Feed(p, [a, b, c]) == (Step(Step(Step(p, a).0, b).0, c).0, [])
  {
    FeedTwo(p, a, b);
    FeedOne(Step(Step(p, a).0, b).0, c);
    FeedAppend(p, [a, b], [c]);
    assert [a, b] + [c] == [a, b, c];
  }

  /**
   Inside a packet, what cannot be part of it is skipped and the packet goes on: an end mark without two
   digits, a run with a bad length, and a run with nothing to repeat.  Of these bytes only the mark of a run
   counts for the checksum.
   */
  lemma NoiseIsSkipped(p: Parser, h: Byte, c: Byte)
    requires p.state.GetLine?
    ensures !IsHexDigit(c) ==> Feed(p, [35, c]) == (p, [])
    ensures IsHexDigit(h) && !IsHexDigit(c) ==> Feed(p, [35, h, c]) == (p.(csum := 16 * FromHex(h)), [])
    ensures c < 32 || c == 35 || c == 36 || c > 126 ==> Feed(p, [42, c]) == (p.(sum := p.sum + 42), [])
    ensures p.buf == [] ==> Feed(p, [42, c]) == (p.(sum := p.sum + 42), [])
  {
    if !IsHexDigit(c) {
      FeedTwo(p, 35, c);
    }
    if IsHexDigit(h) && !IsHexDigit(c) {
      FeedThree(p, 35, h, c);
    }
    FeedTwoSilent(p, 42, c);
  }

  lemma FeedTwoSilent(p: Parser, a: Byte, c: Byte)
    requires p.state.GetLine? && a == STAR
    ensures Feed(p, [a, c]) == (Step(Step(p, a).0, c).0, [])
  {
    FeedTwo(p, a, c);
  }

  /** The end mark ends a packet after an escape mark as it does without one. */
  lemma EndMarks(p: Parser)
    requires p.state.GetLine?
    ensures Feed(p, [HASH]) == (p.(state := Chksum1), [])
    ensures Feed(p, [BRACE, HASH]) == (p.(state := Chksum1, sum := p.sum + BRACE), [])
  {
    FeedOne(p, HASH);
    FeedTwo(p, BRACE, HASH);
  }

  /** An escape mark just before the end mark stands for nothing but counts for the checksum. */
  lemma EscapeBeforeEnd(p: Parser, hi: Byte, lo: Byte)
    requires p.state.GetLine? && IsHexDigit(hi) && IsHexDigit(lo)
    ensures var r := Feed(p, [BRACE, HASH] + [hi, lo]);
      r.0.state.Idle? && r.1 == [if 16 * FromHex(hi) + FromHex(lo) == (p.sum + 125) % 256 then Ack(p.buf) else Nak]
  {
    var q := p.(sum := p.sum + BRACE);
    EndMarks(p);
    EndMarks(q);
    FeedAppend(p, [BRACE, HASH], [hi, lo]);
    FeedAppend(q, [HASH], [hi, lo]);
    EndStep(q, hi, lo);
    assert [HASH] + [hi, lo] == [HASH, hi, lo];
  }

  lemma OneToken(t: Token)
    ensures AllBytes([t]) == Bytes(t) && Meaning([t]) == Adds([], t)
    ensures AllRoom([t]) <==> Room([], t)
    ensures ValidTokens([t]) <==> ValidToken(t) && !t.Run?
  {
    Snoc([], t);
    assert [] + [t] == [t];
  }

  /** A stream that is a framed packet of these tokens, whose checksum is right. */
  lemma ParsedAs(p: Parser, s: seq<Byte>, ts: seq<Token>, hi: Byte, lo: Byte)
    requires p.state.Idle? && ValidTokens(ts) && AllRoom(ts) && IsHexDigit(hi) && IsHexDigit(lo)
    requires s == [DOLLAR] + AllBytes(ts) + [HASH, hi, lo]
    requires 16 * FromHex(hi) + FromHex(lo) == Sum(AllBytes(ts)) % 256
    ensures Feed(p, s).1 == [Ack(Meaning(ts))]
  {
    PacketIsParsed(p, ts, hi, lo);
  }

  /** An escaped 35, as it comes over the wire: $ } 0x03 # 8 0. */
  lemma EscapedHash(p: Parser, s: seq<Byte>)
    requires p.state.Idle? && s == [36, 125, 3, 35, 56, 48]
    ensures Feed(p, s).1 == [Ack([35])]
  {
    OneToken(Esc(3));
    SumOfToken(Esc(3));
    ParsedAs(p, s, [Esc(3)], 56, 48);
  }

  /** Four times the digit 0, as a run of three: $ 0 * space # 7 a, also with a capital A. */
  lemma RunOfZeros(p: Parser, a: Byte, s: seq<Byte>)
    requires p.state.Idle? && (a == 97 || a == 65) && s == [36, 48, 42, 32, 35, 55, a]
    ensures Feed(p, s).1 == [Ack([48, 48, 48, 48])]
  {
    var ts := [Lit(48)] + [Run(32)];
    OneToken(Lit(48));
    Snoc([Lit(48)], Run(32));
    SumOfToken(Lit(48));
    SumOfToken(Run(32));
    SumAppend(Bytes(Lit(48)), Bytes(Run(32)));
    assert Meaning(ts) == [48, 48, 48, 48];
    ParsedAs(p, s, ts, 55, a);
  }
}
