/**
 How packets and acknowledgements go back and forth (gdbstub.c): the gate of gdb_read_byte for replies that
 have not been acknowledged, and the sending loop of put_packet_binary in user mode.
 */
module GdbDialogue {
  import opened GdbPacket
  import opened GdbParser

  function Copies(s: seq<Byte>, n: nat): seq<Byte> {
    if n == 0 then [] else Copies(s, n - 1) + s
  }

  // --- User mode: put_packet_binary sends until it is acknowledged ---

  /** What get_char returns in turn; beyond the end it fails. */
  function Answer(answers: seq<int>, i: nat): int {
    if i < |answers| then answers[i] else -1
  }

  /** The first answer that is an acknowledgement or a failure. */
  function Ends(answers: seq<int>, i: nat): (k: nat)
    ensures i <= k && (k > i ==> k <= |answers|) && (Answer(answers, k) < 0 || Answer(answers, k) == PLUS)
    ensures forall j :: i <= j < k ==> Answer(answers, j) >= 0 && Answer(answers, j) != PLUS
    decreases |answers| - i
  {
    if Answer(answers, i) < 0 || Answer(answers, i) == PLUS then i else Ends(answers, i + 1)
  }

  /** put_packet_binary in user mode: one copy for each answer up to the first acknowledgement or failure. */
  method PutPacketUser(body: seq<Byte>, answers: seq<int>) returns (ok: bool, sent: seq<Byte>)
    ensures var k := Ends(answers, 0);
      sent == Copies(Frame(body), k + 1) && (ok <==> Answer(answers, k) == PLUS)
  {
    sent := [];
    var i := 0;
    while true
      invariant sent == Copies(Frame(body), i) && Ends(answers, i) == Ends(answers, 0)
      decreases |answers| - i
    {
      var packet := PutPacketBinary(body);
      sent := sent + packet;
      var c := Answer(answers, i);
      if c < 0 {
        return false, sent;
      }
      if c == PLUS {
        return true, sent;
      }
      i := i + 1;
    }
  }

  function Acks(data: seq<Byte>, n: nat): seq<Reply> {
    if n == 0 then [] else Acks(data, n - 1) + [Ack(data)]
  }

  /** An idle parser answers the frame with one reply and is idle again. */
  ghost predicate Yields(f: seq<Byte>, reply: Reply) {
    forall q: Parser {:trigger Feed(q, f)} :: q.state.Idle? ==> Feed(q, f).0.state.Idle? && Feed(q, f).1 == [reply]
  }

  lemma {:induction false} FeedCopies(p: Parser, f: seq<Byte>, data: seq<Byte>, n: nat)
    requires p.state.Idle? && Yields(f, Ack(data))
    ensures Feed(p, Copies(f, n)).0.state.Idle? && Feed(p, Copies(f, n)).1 == Acks(data, n)
  {
    if n > 0 {
      FeedCopies(p, f, data, n - 1);
      FeedAppend(p, Copies(f, n - 1), f);
    }
  }

  /** Every copy that is sent is understood by the other side. */
  lemma CopiesAreUnderstood(p: Parser, data: seq<Byte>, n: nat)
    requires p.state.Idle? && |data| <= MAX_PACKET_LENGTH - 1
    ensures Feed(p, Copies(Frame(XOf(data)), n)).0.state.Idle?
    ensures Feed(p, Copies(Frame(XOf(data)), n)).1 == Acks(data, n)
  {
    forall q: Parser | q.state.Idle?
      ensures Feed(q, Frame(XOf(data))).0.state.Idle? && Feed(q, Frame(XOf(data))).1 == [Ack(data)]
    {
      RoundTrip(q, data);
    }
    FeedCopies(p, Frame(XOf(data)), data, n);
  }

  // --- System mode: the gate in front of the parser ---

  /** The parser, the last reply while it is not acknowledged, and whether the machine runs. */
  datatype Link = Link(parser: Parser, last: seq<Byte>, running: bool)

  /** What handling a packet leads to: the reply, as it is framed, and whether the machine runs now. */
  type Handler = seq<Byte> -> (seq<Byte>, bool)

  /** gdb_read_byte; `stopped` is the reply that stopping the machine sends. */
  function OnByte(h: Handler, stopped: seq<Byte>, l: Link, ch: Byte): (Link, seq<Byte>) {
    if l.last != [] && ch != DOLLAR then
      (l.(last := if ch == PLUS then [] else l.last), if ch == MINUS then l.last else [])
    else if l.running then (Link(l.parser, stopped, false), stopped)
    else
      var (q, reply) := Step(l.parser, ch);
      match reply
      case Silent => (Link(q, [], false), [])
      case Nak => (Link(q, [], false), [MINUS])
      case Ack(packet) => (Link(q, h(packet).0, h(packet).1), [PLUS] + h(packet).0)
  }

  /** What reading a byte does to a link, and what is sent. */
  type Reader = (Link, Byte) -> (Link, seq<Byte>)

  function Reading(h: Handler, stopped: seq<Byte>): Reader {
    (l: Link, ch: Byte) => OnByte(h, stopped, l, ch)
  }

  /** What is sent while a stream is read. */
  function Talk(r: Reader, l: Link, s: seq<Byte>): (Link, seq<Byte>)
    decreases |s|
  {
    if s == [] then (l, [])
    else
      var (m, out) := Talk(r, l, s[..|s| - 1]);
      var (n, more) := r(m, s[|s| - 1]);
      (n, out + more)
  }

  class Session {
    const stub: Stub
    var last: seq<Byte>
    var running: bool

    constructor ()
      ensures fresh(stub) && fresh(stub.lineBuf) && stub.Valid() && Fits(stub.Now())
      ensures stub.Now().state.Idle? && last == [] && !running
    {
      stub := new Stub();
      last, running := [], false;
    }

    ghost function Now(): Link
      requires stub.Valid()
      reads this, stub, stub.lineBuf
    {
      Link(stub.Now(), last, running)
    }

    /** gdb_read_byte with its gate. */
    method ReadByte(h: Handler, stopped: seq<Byte>, ch: Byte) returns (out: seq<Byte>)
      requires stub.Valid() && Fits(stub.Now())
      modifies this, stub, stub.lineBuf
      ensures stub.Valid() && Fits(stub.Now()) && (Now(), out) == OnByte(h, stopped, old(Now()), ch)
    {
      out := [];
      if last != [] {
        if ch == MINUS {
          out := last;
        }
        if ch == PLUS || ch == DOLLAR {
          last := [];
        }
        if ch != DOLLAR {
          return;
        }
      }
      if running {
        running, last, out := false, stopped, stopped;
      } else {
        var reply := stub.ReadByte(ch);
        match reply
        case Silent =>
        case Nak =>
          out := [MINUS];
        case Ack(packet) =>
          last, running := h(packet).0, h(packet).1;
          out := [PLUS] + last;
      }
    }
  }

  lemma TalkSnoc(r: Reader, l: Link, s: seq<Byte>, ch: Byte)
    ensures var m := Talk(r, l, s);
      Talk(r, l, s + [ch]).0 == r(m.0, ch).0 && Talk(r, l, s + [ch]).1 == m.1 + r(m.0, ch).1
  {
    assert (s + [ch])[..|s|] == s;
  }

  lemma {:induction false} TalkAppend(r: Reader, l: Link, a: seq<Byte>, b: seq<Byte>)
    ensures var m := Talk(r, l, a);
      Talk(r, l, a + b).0 == Talk(r, m.0, b).0 && Talk(r, l, a + b).1 == m.1 + Talk(r, m.0, b).1
    decreases |b|
  {
    if b == [] {
      assert a + b == a;
    } else {
      var front, ch := b[..|b| - 1], b[|b| - 1];
      assert b == front + [ch] && a + b == (a + front) + [ch];
      TalkAppend(r, l, a, front);
      TalkSnoc(r, l, a + front, ch);
      TalkSnoc(r, Talk(r, l, a).0, front, ch);
    }
  }

  lemma TalkOne(r: Reader, l: Link, ch: Byte)
    ensures Talk(r, l, [ch]).0 == r(l, ch).0 && Talk(r, l, [ch]).1 == r(l, ch).1
  {
    TalkSnoc(r, l, [], ch);
    assert [] + [ch] == [ch];
  }

  function CountOf(b: Byte, s: seq<Byte>): nat {
    if s == [] then 0 else CountOf(b, s[..|s| - 1]) + if s[|s| - 1] == b then 1 else 0
  }

  /**
   Until the first acknowledgement or the start of a packet, a reply is sent again once for every negative
   acknowledgement, and nothing reaches the parser.
   */
  lemma {:induction false} ResendUntilAck(h: Handler, stopped: seq<Byte>, l: Link, s: seq<Byte>)
    requires l.last != [] && PLUS !in s && DOLLAR !in s
    ensures Talk(Reading(h, stopped), l, s).0 == l
    ensures Talk(Reading(h, stopped), l, s).1 == Copies(l.last, CountOf(MINUS, s))
    decreases |s|
  {
    if s != [] {
      var front, ch := s[..|s| - 1], s[|s| - 1];
      ResendUntilAck(h, stopped, l, front);
      TalkSnoc(Reading(h, stopped), l, front, ch);
      assert s == front + [ch];
    }
  }

  /** While the parser has nothing to say, an open gate lets everything through. */
  lemma {:induction false} OpenGate(h: Handler, stopped: seq<Byte>, l: Link, s: seq<Byte>)
    requires l.last == [] && !l.running && Feed(l.parser, s).1 == []
    ensures Talk(Reading(h, stopped), l, s) == (l.(parser := Feed(l.parser, s).0), [])
    decreases |s|
  {
    if s != [] {
      assert s == s[..|s| - 1] + [s[|s| - 1]];
      FeedSnoc(l.parser, s[..|s| - 1], s[|s| - 1]);
      OpenGate(h, stopped, l, s[..|s| - 1]);
    }
  }

  /** The frame taken apart: before its last byte it ends with the end mark and the first digit. */
  lemma FrameShape(body: seq<Byte>)
    ensures var f := Frame(body); var n := |f| - 1;
      && n >= 3 && f[..n][..n - 2] == [DOLLAR] + body && f[n - 2] == HASH && f[..n] + [f[n]] == f
      && IsHexDigit(f[n - 1]) && IsHexDigit(f[n])
  {
    ChecksumDigits(Sum(body));
  }

  /** After its body a packet is still being collected. */
  lemma StillCollecting(p: Parser, data: seq<Byte>)
    requires p.state.Idle? && |data| <= MAX_PACKET_LENGTH - 1
    ensures Feed(p, [DOLLAR] + XOf(data)).0.state.GetLine?
  {
    TokensOfWorks(data);
    FeedOne(p, DOLLAR);
    BodyStep(Feed(p, [DOLLAR]).0, TokensOf(data));
    FeedAppend(p, [DOLLAR], XOf(data));
  }

  lemma SecondDigitIsAnswered(q: Parser, ch: Byte)
    requires q.state.Chksum2? && IsHexDigit(ch)
    ensures !Step(q, ch).1.Silent? && Step(q, ch).0.state.Idle?
  {
  }

  /** Of replies that make up a single one, with the last one not silent, the others are none. */
  lemma SingleReply(rs: seq<Reply>, last: Reply, all: Reply)
    requires rs + [last] == [all]
    ensures rs == [] && last == all
  {
    assert |rs + [last]| == |rs| + 1;
    assert (rs + [last])[|rs|] == last;
  }

  /** A packet is answered by its last byte and not before. */
  lemma AnsweredAtTheEnd(p: Parser, data: seq<Byte>)
    requires p.state.Idle? && |data| <= MAX_PACKET_LENGTH - 1
    ensures var f := Frame(XOf(data)); var n := |f| - 1;
      && n > 0 && Feed(p, f[..n]).1 == []
      && Step(Feed(p, f[..n]).0, f[n]).1 == Ack(data) && Step(Feed(p, f[..n]).0, f[n]).0.state.Idle?
  {
    var f := Frame(XOf(data));
    var n := |f| - 1;
    FrameShape(XOf(data));
    StillCollecting(p, data);
    DigitsCome(p, f[..n]);
    SecondDigitIsAnswered(Feed(p, f[..n]).0, f[n]);
    RoundTrip(p, data);
    FeedSnoc(p, f[..n], f[n]);
    SingleReply(Feed(p, f[..n]).1, Step(Feed(p, f[..n]).0, f[n]).1, Ack(data));
  }

  function Requests(ds: seq<seq<Byte>>): seq<Byte> {
    if ds == [] then [] else Requests(ds[..|ds| - 1]) + (Frame(XOf(ds[|ds| - 1])) + [PLUS])
  }

  function Answers(h: Handler, ds: seq<seq<Byte>>): seq<Byte> {
    if ds == [] then [] else Answers(h, ds[..|ds| - 1]) + ([PLUS] + h(ds[|ds| - 1]).0)
  }

  /** A request of at most 4095 bytes that is answered without letting the machine run. */
  predicate Plain(h: Handler, data: seq<Byte>) {
    |data| <= MAX_PACKET_LENGTH - 1 && h(data).0 != [] && !h(data).1
  }

  ghost predicate Listening(l: Link) {
    l.parser.state.Idle? && l.last == [] && !l.running
  }

  lemma OneRequest(h: Handler, stopped: seq<Byte>, l: Link, data: seq<Byte>)
    requires Listening(l) && Plain(h, data)
    ensures var r := Talk(Reading(h, stopped), l, Frame(XOf(data)) + [PLUS]);
      Listening(r.0) && r.1 == [PLUS] + h(data).0
  {
    var f := Frame(XOf(data));
    var n := |f| - 1;
    AnsweredAtTheEnd(l.parser, data);
    OpenGate(h, stopped, l, f[..n]);
    var m := Talk(Reading(h, stopped), l, f[..n]).0;
    TalkOne(Reading(h, stopped), m, f[n]);
    TalkAppend(Reading(h, stopped), l, f[..n], [f[n]]);
    assert f[..n] + [f[n]] == f;
    TalkOne(Reading(h, stopped), Talk(Reading(h, stopped), l, f).0, PLUS);
    TalkAppend(Reading(h, stopped), l, f, [PLUS]);
  }

  /**
   A dialogue: whatever requests a client encodes and sends, acknowledging each reply, the stub acknowledges
   each one and answers it, in order and nothing else, and then listens again.
   */
  lemma {:induction false} Dialogue(h: Handler, stopped: seq<Byte>, l: Link, ds: seq<seq<Byte>>)
    requires Listening(l) && forall d :: d in ds ==> Plain(h, d)
    ensures Listening(Talk(Reading(h, stopped), l, Requests(ds)).0)
    ensures Talk(Reading(h, stopped), l, Requests(ds)).1 == Answers(h, ds)
    decreases |ds|
  {
    if ds != [] {
      var front, d := ds[..|ds| - 1], ds[|ds| - 1];
      Dialogue(h, stopped, l, front);
      TalkAppend(Reading(h, stopped), l, Requests(front), Frame(XOf(d)) + [PLUS]);
      OneRequest(h, stopped, Talk(Reading(h, stopped), l, Requests(front)).0, d);
    }
  }
}
