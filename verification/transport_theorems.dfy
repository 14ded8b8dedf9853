// What the transports deliver: under any schedule of partial sends, partial receives and
// interruptions the answer is the service's or E_FAIL, and under schedules that do not give
// out the two transports agree.

module TransportTheorems {
  import opened Bytes
  import opened Basics
  import opened Results
  import opened Transport
  import opened Requests

  // ---- one write, one read -----------------------------------------------------------

  // How many calls move something before one fails or the schedule is spent.
  function Steady(events: seq<Event>): nat {
    if events == [] || events[0].Fails? then 0
    else Steady(events[1..]) + (if events[0].Moves? then 1 else 0)
  }

  // A write delivers the buffer, or a proper prefix of it when it fails, and nothing else.
  lemma {:induction false} WriteDelivers(w: Wire, buf: seq<byte>) returns (k: nat)
    ensures k <= |buf| && (Write(w, buf).1 <==> k == |buf|)
    ensures Write(w, buf).0.sent == w.sent + buf[..k]
    ensures Write(w, buf).0.incoming == w.incoming && Write(w, buf).0.recvs == w.recvs
    ensures |buf| <= Steady(w.sends) ==> k == |buf|
    ensures k == |buf| ==> Steady(Write(w, buf).0.sends) + |buf| >= Steady(w.sends)
    decreases |w.sends|
  {
    var (rest, moved) := SendStep(w, buf);
    if buf == [] || moved == Some(0) {
      k := 0;
    } else if moved.None? {
      k := WriteDelivers(rest, buf);
    } else {
      var n := moved.value;
      k := WriteDelivers(rest, buf[n..]);
      assert w.sent + buf[..n] + buf[n..][..k] == w.sent + buf[..n + k];
      k := n + k;
    }
  }

  lemma SlicesJoin(s: seq<byte>, k: nat, n: nat)
    requires k <= n <= |s|
    ensures s[..k] + s[k..][..n - k] == s[..n] && s[k..][n - k..] == s[n..]
  {
  }

  // A read takes exactly what the peer sent next, or fails; it does not fail for want of
  // anything but bytes when the schedule lasts.
  lemma {:induction false} ReadTakes(w: Wire, n: nat)
    ensures Read(w, n).0.sent == w.sent && Read(w, n).0.sends == w.sends
    ensures Read(w, n).1.Some? ==>
              n <= |w.incoming| && Read(w, n).1.value == w.incoming[..n] && Read(w, n).0.incoming == w.incoming[n..]
    ensures n <= Steady(w.recvs) ==> (Read(w, n).1.Some? <==> n <= |w.incoming|)
    ensures Read(w, n).1.Some? ==> Steady(Read(w, n).0.recvs) + n >= Steady(w.recvs)
    decreases |w.recvs|
  {
    if n > 0 {
      var (rest, bytes) := RecvStep(w, n);
      if bytes.None? {
        ReadTakes(rest, n);
      } else if bytes.value != [] {
        var k := |bytes.value|;
        ReadTakes(rest, n - k);
        if n <= |w.incoming| {
          SlicesJoin(w.incoming, k, n);
        }
      }
    }
  }

  // ---- what a reply means ------------------------------------------------------------

  // The answer in everything the service says before it closes.
  function AnswerTo(stream: seq<byte>): Answer {
    if |stream| < 10 || FromBytes(stream[0..4]) != XML_MAGIC then FAILED
    else
      var size := FromBytes(stream[6..10]);
      if size > MAX_MESSAGE_SIZE || |stream| < 10 + size then FAILED
      else Answered(FromBytes(stream[4..6]), stream[10..10 + size])
  }

  // How much of the stream an answer takes; a failure needs nothing.
  function ReplyLength(stream: seq<byte>): nat {
    match AnswerTo(stream)
    case Answered(_, body) => 10 + |body|
    case Refused(_) => 0
  }

  lemma Powers()
    ensures Power256(2) == U16 && Power256(4) == U32
  {
    assert Power256(2) == U16;
    assert Power256(3) == 256 * U16;
  }

  function Low(n: nat): byte {
    (n % 256) as byte
  }

  lemma TwoBytes(n: nat)
    ensures ToBytes(n, 2) == [Low(n), Low(n / 256)]
  {
    assert ToBytes(n / 256, 1) == [Low(n / 256)] + ToBytes(n / 256 / 256, 0);
  }

  lemma FourBytes(n: nat)
    ensures ToBytes(n, 4) == [Low(n), Low(n / 256), Low(n / 0x1_0000), Low(n / 0x100_0000)]
  {
    assert n / 256 / 256 == n / 0x1_0000 && n / 0x1_0000 / 256 == n / 0x100_0000;
    TwoBytes(n / 0x1_0000);
    assert ToBytes(n / 256, 3) == [Low(n / 256)] + ToBytes(n / 0x1_0000, 2);
  }

  // A frame byte by byte: the letters XSDY, the kind and the payload's size with their low
  // bytes first, the payload.
  lemma FrameBytes(kind: nat, payload: seq<byte>)
    requires |payload| < 0x1_0000_0000
    ensures var n := |payload|;
            Frame(kind, payload) ==
              [0x58, 0x53, 0x44, 0x59] + [Low(kind), Low(kind / 256)]
              + [Low(n), Low(n / 256), Low(n / 0x1_0000), Low(n / 0x100_0000)] + payload
  {
    TwoBytes(kind);
    FourBytes(|payload|);
    MagicBytes();
  }

  lemma MagicBytes()
    ensures ToBytes(XML_MAGIC, 4) == [0x58, 0x53, 0x44, 0x59]
  {
    FourBytes(0x5944_5358);
  }

  // A greeting is the letters XDAU and the secret.
  lemma GreetingBytes(secret: seq<byte>)
    ensures Hello(secret) == [0x58, 0x44, 0x41, 0x55] + secret
  {
    FourBytes(0x5541_4458);
  }

  // The fields of a frame, one by one.
  lemma FrameMagic(kind: nat, body: seq<byte>)
    ensures FromBytes(Frame(kind, body)[0..4]) == XML_MAGIC
  {
    Powers();
    BytesRoundTrip(XML_MAGIC, 4);
    assert Frame(kind, body)[0..4] == ToBytes(XML_MAGIC, 4);
  }

  lemma FrameKind(kind: nat, body: seq<byte>)
    requires kind < U16
    ensures FromBytes(Frame(kind, body)[4..6]) == kind
  {
    Powers();
    BytesRoundTrip(kind, 2);
    assert Frame(kind, body)[4..6] == ToBytes(kind, 2);
  }

  lemma FrameSize(kind: nat, body: seq<byte>)
    requires |body| < U32
    ensures FromBytes(Frame(kind, body)[6..10]) == |body|
  {
    Powers();
    BytesRoundTrip(|body|, 4);
    assert Frame(kind, body)[6..10] == ToBytes(|body|, 4);
  }

  lemma FrameBody(kind: nat, body: seq<byte>)
    ensures |Frame(kind, body)| == 10 + |body| && Frame(kind, body)[10..10 + |body|] == body
  {
  }

  lemma PrefixSlices(frame: seq<byte>, stream: seq<byte>, size: nat)
    requires frame <= stream && |frame| == 10 + size
    ensures stream[0..4] == frame[0..4] && stream[4..6] == frame[4..6] && stream[6..10] == frame[6..10]
    ensures stream[10..10 + size] == frame[10..10 + size]
  {
  }

  lemma FramedIsAnswered(stream: seq<byte>, kind: nat, body: seq<byte>)
    requires kind < U16 && |body| <= MAX_MESSAGE_SIZE && Frame(kind, body) <= stream
    ensures AnswerTo(stream) == Answered(kind, body)
  {
    FrameMagic(kind, body);
    FrameKind(kind, body);
    FrameSize(kind, body);
    FrameBody(kind, body);
    PrefixSlices(Frame(kind, body), stream, |body|);
  }

  // It is a kind and a body exactly when the stream starts with the frame of that kind and
  // that body: what is framed on one side is what is read on the other.
  lemma AnswerIsTheFramedReply(stream: seq<byte>, kind: nat, body: seq<byte>)
    requires kind < U16 && |body| <= MAX_MESSAGE_SIZE
    ensures AnswerTo(stream) == Answered(kind, body) <==> Frame(kind, body) <= stream
  {
    if Frame(kind, body) <= stream {
      FramedIsAnswered(stream, kind, body);
    }
    if AnswerTo(stream) == Answered(kind, body) {
      FrameOfAnswer(stream, kind, body);
    }
  }

  lemma HeaderJoins(s: seq<byte>, size: nat)
    requires 10 + size <= |s|
    ensures s[..10 + size] == s[0..4] + s[4..6] + s[6..10] + s[10..10 + size]
  {
  }

  lemma FrameOfAnswer(stream: seq<byte>, kind: nat, body: seq<byte>)
    requires AnswerTo(stream) == Answered(kind, body)
    ensures Frame(kind, body) <= stream
  {
    NumberRoundTrip(stream[0..4]);
    NumberRoundTrip(stream[4..6]);
    NumberRoundTrip(stream[6..10]);
    assert ToBytes(XML_MAGIC, 4) == stream[0..4] && ToBytes(kind, 2) == stream[4..6];
    assert |body| % U32 == |body| && ToBytes(|body|, 4) == stream[6..10];
    HeaderJoins(stream, |body|);
    assert Frame(kind, body) == stream[..10 + |body|];
  }

  // ---- each transport ----------------------------------------------------------------

  lemma HeaderSlices(s: seq<byte>)
    requires 10 <= |s|
    ensures s[..4] == s[0..4] && s[4..][..6][0..2] == s[4..6] && s[4..][..6][2..6] == s[6..10]
    ensures s[4..][6..] == s[10..]
    ensures s[..10][0..4] == s[0..4] && s[..10][4..6] == s[4..6] && s[..10][6..10] == s[6..10]
  {
  }

  // The body, once the header has been read.
  lemma BodyTakes(w: Wire, stream: seq<byte>, size: nat)
    requires 10 <= |stream| && w.incoming == stream[10..]
    ensures Read(w, size).1.Some? ==> 10 + size <= |stream| && Read(w, size).1.value == stream[10..10 + size]
    ensures size <= Steady(w.recvs) && 10 + size <= |stream| ==> Read(w, size).1.Some?
    ensures Read(w, size).0.sent == w.sent
  {
    ReadTakes(w, size);
    if 10 + size <= |stream| {
      assert stream[10..][..size] == stream[10..10 + size];
    }
  }

  // Whatever the schedule, a TCP reply is the stream's answer or E_FAIL; if the schedule
  // lasts for the reply it is the answer.
  lemma TcpReplyIsTheAnswer(w: Wire)
    ensures TcpReply(w).1 == FAILED || TcpReply(w).1 == AnswerTo(w.incoming)
    ensures ReplyLength(w.incoming) <= Steady(w.recvs) ==> TcpReply(w).1 == AnswerTo(w.incoming)
    ensures TcpReply(w).0.sent == w.sent
  {
    var s := w.incoming;
    ReadTakes(w, 4);
    var (w1, magic) := Read(w, 4);
    if magic.Some? {
      ReadTakes(w1, 6);
      var (w2, header) := Read(w1, 6);
      if header.Some? {
        HeaderSlices(s);
        var size := FromBytes(header.value[2..6]);
        BodyTakes(w2, s, size);
      }
    }
  }

  lemma UnixReplyIsTheAnswer(w: Wire)
    ensures UnixReply(w).2 == FAILED || UnixReply(w).2 == AnswerTo(w.incoming)
    ensures ReplyLength(w.incoming) <= Steady(w.recvs) ==> UnixReply(w).2 == AnswerTo(w.incoming)
    ensures UnixReply(w).0.sent == w.sent
  {
    var s := w.incoming;
    ReadTakes(w, 10);
    var (w1, header) := Read(w, 10);
    if header.Some? {
      HeaderSlices(s);
      var size := FromBytes(header.value[6..10]);
      BodyTakes(w1, s, size);
    }
  }

  // What the handshake puts on the wire.
  function Hello(secret: seq<byte>): seq<byte> {
    ToBytes(HANDSHAKE_MAGIC, 4) + secret
  }

  lemma HandshakeGreets(w: Wire, secret: seq<byte>)
    ensures Handshake(w, secret).1 ==>
              && Handshake(w, secret).0.sent == w.sent + Hello(secret)
              && w.incoming != [] && w.incoming[0] == ACCEPTED && Handshake(w, secret).0.incoming == w.incoming[1..]
              && Steady(Handshake(w, secret).0.sends) + |Hello(secret)| >= Steady(w.sends)
              && Steady(Handshake(w, secret).0.recvs) + 1 >= Steady(w.recvs)
    ensures |Hello(secret)| <= Steady(w.sends) && 1 <= Steady(w.recvs) ==>
              (Handshake(w, secret).1 <==> w.incoming != [] && w.incoming[0] == ACCEPTED)
    ensures exists k :: 0 <= k <= |Hello(secret)| && Handshake(w, secret).0.sent == w.sent + Hello(secret)[..k]
  {
    var magic, hello := ToBytes(HANDSHAKE_MAGIC, 4), Hello(secret);
    var k1 := WriteDelivers(w, magic);
    assert magic[..k1] == hello[..k1];
    var (w1, ok1) := Write(w, magic);
    if ok1 {
      assert magic[..k1] == magic;
      var k2 := WriteDelivers(w1, secret);
      assert w.sent + magic + secret[..k2] == w.sent + hello[..4 + k2];
      var (w2, ok2) := Write(w1, secret);
      if ok2 {
        assert hello[..4 + k2] == hello;
        ReadTakes(w2, 1);
        HandshakeEnds(w, secret, w2);
      }
    }
  }

  lemma HandshakeEnds(w: Wire, secret: seq<byte>, w2: Wire)
    requires Write(w, ToBytes(HANDSHAKE_MAGIC, 4)).1
    requires Write(Write(w, ToBytes(HANDSHAKE_MAGIC, 4)).0, secret) == (w2, true)
    ensures Handshake(w, secret).0 == Read(w2, 1).0
    ensures Handshake(w, secret).1 <==> Read(w2, 1).1.Some? && Read(w2, 1).1.value[0] == ACCEPTED
  {
  }

  // Everything put on the wire is the beginning of one message, all of it if an answer came.
  ghost predicate Emits(w: Wire, w': Wire, message: seq<byte>) {
    exists k :: 0 <= k <= |message| && w'.sent == w.sent + message[..k]
  }

  lemma GreetingPart(sent: seq<byte>, hello: seq<byte>, frame: seq<byte>, k: nat)
    ensures k <= |hello| ==> sent + hello[..k] == sent + (hello + frame)[..k]
    ensures k <= |frame| ==> sent + hello + frame[..k] == sent + (hello + frame)[..|hello| + k]
  {
    if k <= |frame| {
      assert (hello + frame)[..|hello| + k] == hello + frame[..k];
    }
  }

  lemma EmitsUpTo(w: Wire, w': Wire, message: seq<byte>, k: nat)
    requires k <= |message| && w'.sent == w.sent + message[..k]
    ensures Emits(w, w', message)
  {
  }

  // A TCP request answers what the service says after accepting the handshake, or E_FAIL; it
  // puts the greeting and the frame on the wire, or the beginning of them.
  lemma TcpRequestIsTheAnswer(w: Wire, secret: seq<byte>, kind: nat, payload: seq<byte>)
    ensures var (w', answer) := TcpRequest(w, Some(secret), true, kind, payload);
            && (answer == FAILED
                || (w.incoming != [] && w.incoming[0] == ACCEPTED && answer == AnswerTo(w.incoming[1..])))
            && (answer.Answered? ==> w'.sent == w.sent + Hello(secret) + Frame(kind, payload))
            && Emits(w, w', Hello(secret) + Frame(kind, payload))
  {
    var hello, frame := Hello(secret), Frame(kind, payload);
    HandshakeGreets(w, secret);
    var (w1, accepted) := Handshake(w, secret);
    if !accepted {
      var k :| 0 <= k <= |hello| && w1.sent == w.sent + hello[..k];
      GreetingPart(w.sent, hello, frame, k);
      EmitsUpTo(w, w1, hello + frame, k);
    } else {
      TcpAfterHandshake(w, w1, hello, kind, payload);
    }
  }

  lemma TcpAfterHandshake(w: Wire, w1: Wire, hello: seq<byte>, kind: nat, payload: seq<byte>)
    requires w1.sent == w.sent + hello
    ensures var (w2, ok) := Write(w1, Frame(kind, payload));
            && Emits(w, w2, hello + Frame(kind, payload))
            && Emits(w, TcpReply(w2).0, hello + Frame(kind, payload))
            && w2.incoming == w1.incoming
            && (ok ==> TcpReply(w2).0.sent == w.sent + hello + Frame(kind, payload))
            && (ok ==> TcpReply(w2).1 == FAILED || TcpReply(w2).1 == AnswerTo(w1.incoming))
  {
    var frame := Frame(kind, payload);
    var k := WriteDelivers(w1, frame);
    var (w2, ok) := Write(w1, frame);
    GreetingPart(w.sent, hello, frame, k);
    TcpReplyIsTheAnswer(w2);
    EmitsUpTo(w, w2, hello + frame, |hello| + k);
    EmitsUpTo(w, TcpReply(w2).0, hello + frame, |hello| + k);
    if ok {
      assert frame[..k] == frame;
    }
  }

  // Without an endpoint, a connection or an acceptance no request goes out over TCP: the first
  // is not implemented, the others fail; and only a greeting is said before the acceptance.
  lemma TcpRefusals(w: Wire, secret: Option<seq<byte>>, connected: bool, kind: nat, payload: seq<byte>)
    ensures var (w', answer) := TcpRequest(w, secret, connected, kind, payload);
            && (secret.None? ==> w' == w && answer == Refused(E_NOTIMPL))
            && (secret.Some? && !connected ==> w' == w && answer == FAILED)
            && (secret.Some? && connected && (w.incoming == [] || w.incoming[0] != 1) ==>
                  answer == FAILED && Emits(w, w', Hello(secret.value)))
  {
    if secret.Some? && connected {
      HandshakeGreets(w, secret.value);
    }
  }

  // With schedules that last, the TCP request says all it has to say and gets that answer.
  lemma PatientTcpRequest(w: Wire, secret: seq<byte>, kind: nat, payload: seq<byte>)
    requires w.incoming != [] && w.incoming[0] == ACCEPTED
    requires |Hello(secret)| + |Frame(kind, payload)| <= Steady(w.sends) &&
             1 + ReplyLength(w.incoming[1..]) <= Steady(w.recvs)
    ensures TcpRequest(w, Some(secret), true, kind, payload).1 == AnswerTo(w.incoming[1..])
    ensures TcpRequest(w, Some(secret), true, kind, payload).0.sent == w.sent + Hello(secret) + Frame(kind, payload)
  {
    var frame := Frame(kind, payload);
    HandshakeGreets(w, secret);
    var w1 := Handshake(w, secret).0;
    var k := WriteDelivers(w1, frame);
    assert frame[..k] == frame;
    TcpReplyIsTheAnswer(Write(w1, frame).0);
  }

  // The transport found has a path, the request is a buffer, and connecting succeeds.
  predicate Given(t: Target) {
    t.path != 0 && t.request != 0 && t.connect.Success?
  }

  // The same for the Unix socket, which has no greeting and refuses larger payloads.
  lemma UnixRequestIsTheAnswer(w: Wire, t: Target, kind: nat, payload: seq<byte>)
    ensures var (w', answer) := UnixRequest(w, true, t, kind, payload);
            && (answer == FAILED || (answer == AnswerTo(w.incoming) && |payload| <= MAX_MESSAGE_SIZE))
            && (answer.Answered? ==> w'.sent == w.sent + Frame(kind, payload))
            && Emits(w, w', Frame(kind, payload))
            && (|payload| > MAX_MESSAGE_SIZE ==> w' == w)
  {
    var frame := Frame(kind, payload);
    assert w.sent == w.sent + frame[..0];
    var k := WriteDelivers(w, frame);
    var (w1, ok) := Write(w, frame);
    if ok {
      assert frame[..k] == frame;
      UnixReplyIsTheAnswer(w1);
    }
  }

  // The Unix path sends nothing, and fails, exactly when there is no native side or no path, a
  // payload without an address or of more than 16 MiB, or no connection; else it exchanges one
  // frame for a reply.
  lemma UnixRefusals(w: Wire, available: bool, t: Target, kind: nat, payload: seq<byte>)
    ensures var refused := || !available || t.path == 0 || (payload != [] && t.request == 0)
                           || |payload| > 16 * 1024 * 1024 || !t.connect.Success?;
            && (refused ==> UnixRequest(w, available, t, kind, payload) == (w, FAILED))
            && (!refused && |Frame(kind, payload)| <= Steady(w.sends) ==>
                  UnixRequest(w, available, t, kind, payload).0.sent == w.sent + Frame(kind, payload))
  {
    var frame := Frame(kind, payload);
    var k := WriteDelivers(w, frame);
    if k == |frame| {
      assert frame[..k] == frame;
      UnixReplyIsTheAnswer(Write(w, frame).0);
    }
  }

  // The status an exchange answers: parameters first, then how connecting turned out; and, on
  // schedules that last, a reply that breaks off is an I/O error, and one without the magic
  // number or over 16 MiB an invalid one.
  lemma ExchangeStatus(w: Wire, t: Target, kind: nat, payload: seq<byte>)
    ensures var status := UnixExchange(w, t, kind, payload).1;
            var refused := || t.path == 0 || t.timeoutMs == 0 || |payload| > 16 * 1024 * 1024
                           || (payload != [] && t.request == 0);
            && (refused ==> status == InvalidParameter)
            && (!refused && !t.connect.Success? ==> status == t.connect)
            && (!refused && t.connect.Success? && |Frame(kind, payload)| <= Steady(w.sends)
                && |w.incoming| <= Steady(w.recvs) && 10 <= Steady(w.recvs) ==>
                  status == StatusOf(w.incoming))
  {
    var k := WriteDelivers(w, Frame(kind, payload));
    var w1 := Write(w, Frame(kind, payload)).0;
    if |w.incoming| <= Steady(w.recvs) && 10 <= Steady(w.recvs) {
      UnixReplyStatus(w1);
    }
  }

  function StatusOf(stream: seq<byte>): Status {
    if |stream| < 10 then IoError
    else if FromBytes(stream[0..4]) != 0x5944_5358 || FromBytes(stream[6..10]) > 16 * 1024 * 1024 then
      InvalidNetworkResponse
    else if |stream| < 10 + FromBytes(stream[6..10]) then IoError
    else Success
  }

  lemma UnixReplyStatus(w: Wire)
    requires |w.incoming| <= Steady(w.recvs) && 10 <= Steady(w.recvs)
    ensures UnixReply(w).1 == StatusOf(w.incoming)
  {
    var s := w.incoming;
    ReadTakes(w, 10);
    var (w1, header) := Read(w, 10);
    if header.Some? {
      HeaderSlices(s);
      var size := FromBytes(header.value[6..10]);
      BodyTakes(w1, s, size);
    }
  }

  lemma PatientUnixRequest(w: Wire, t: Target, kind: nat, payload: seq<byte>)
    requires Given(t)
    requires |payload| <= MAX_MESSAGE_SIZE
    requires |Frame(kind, payload)| <= Steady(w.sends) && ReplyLength(w.incoming) <= Steady(w.recvs)
    ensures UnixRequest(w, true, t, kind, payload).1 == AnswerTo(w.incoming)
    ensures UnixRequest(w, true, t, kind, payload).0.sent == w.sent + Frame(kind, payload)
  {
    var frame := Frame(kind, payload);
    var k := WriteDelivers(w, frame);
    assert frame[..k] == frame;
    UnixReplyIsTheAnswer(Write(w, frame).0);
  }

  // ---- equivalence -------------------------------------------------------------------

  // The same request to the same service over either transport, each under a schedule of its
  // own that lasts for the request and the reply: the same frame goes out and the same answer
  // comes back, exactly when the payload is one the Unix side takes or the service's reply is
  // a failure anyway.
  lemma TransportsAgreeExactly(tcp: Wire, unix: Wire, secret: seq<byte>, t: Target, kind: nat, payload: seq<byte>)
    requires Given(t)
    requires tcp.incoming == [1] + unix.incoming
    requires |Hello(secret)| + |Frame(kind, payload)| <= Steady(tcp.sends) &&
             1 + ReplyLength(unix.incoming) <= Steady(tcp.recvs)
    requires |Frame(kind, payload)| <= Steady(unix.sends) && ReplyLength(unix.incoming) <= Steady(unix.recvs)
    ensures var (w1, overTcp) := TcpRequest(tcp, Some(secret), true, kind, payload);
            var (w2, overUnix) := UnixRequest(unix, true, t, kind, payload);
            && (overTcp == overUnix <==> |payload| <= 16 * 1024 * 1024 || AnswerTo(unix.incoming) == FAILED)
            && w1.sent == tcp.sent + Hello(secret) + Frame(kind, payload)
            && (|payload| <= MAX_MESSAGE_SIZE ==> w2.sent == unix.sent + Frame(kind, payload))
  {
    assert tcp.incoming[1..] == unix.incoming;
    PatientTcpRequest(tcp, secret, kind, payload);
    if |payload| <= MAX_MESSAGE_SIZE {
      PatientUnixRequest(unix, t, kind, payload);
    } else {
      UnixRequestIsTheAnswer(unix, t, kind, payload);
    }
  }
}
