// The two transports to the local service: loopback TCP behind a shared-secret handshake, and
// a Unix socket reached through a native helper that parks the reply until it is fetched. Both
// write one frame and read one back.

module Requests {
  import opened Bytes
  import opened Results
  import opened Basics
  import opened Transport

  const XML_MAGIC: nat := 0x5944_5358
  const HANDSHAKE_MAGIC: nat := 0x5541_4458
  const ACCEPTED: byte := 1
  const MAX_MESSAGE_SIZE: nat := 16 * 1024 * 1024
  const U16: nat := 0x1_0000
  const U32: nat := 0x1_0000_0000

  datatype Answer = Answered(kind: nat, body: seq<byte>) | Refused(hr: HResult)

  const FAILED := Refused(E_FAIL)

  // The size field is 32 bits wide whatever the payload.
  function Frame(kind: nat, payload: seq<byte>): seq<byte> {
    ToBytes(XML_MAGIC, 4) + ToBytes(kind, 2) + ToBytes(|payload| % U32, 4) + payload
  }

  // ---- TCP ---------------------------------------------------------------------------

  function Handshake(w: Wire, secret: seq<byte>): (Wire, bool) {
    var (w1, ok1) := Write(w, ToBytes(HANDSHAKE_MAGIC, 4));
    if !ok1 then (w1, false)
    else
      var (w2, ok2) := Write(w1, secret);
      if !ok2 then (w2, false)
      else
        var (w3, accepted) := Read(w2, 1);
        (w3, accepted.Some? && accepted.value[0] == ACCEPTED)
  }

  // The reply, read as its magic, the rest of its header and its body.
  function TcpReply(w: Wire): (Wire, Answer) {
    var (w1, magic) := Read(w, 4);
    if magic.None? || FromBytes(magic.value) != XML_MAGIC then (w1, FAILED)
    else
      var (w2, header) := Read(w1, 6);
      if header.None? || FromBytes(header.value[2..6]) > MAX_MESSAGE_SIZE then (w2, FAILED)
      else
        var (w3, body) := Read(w2, FromBytes(header.value[2..6]));
        (w3, if body.None? then FAILED else Answered(FromBytes(header.value[0..2]), body.value))
  }

  // `secret` is None when the environment names no endpoint.
  function TcpRequest(w: Wire, secret: Option<seq<byte>>, connected: bool, kind: nat,
                      payload: seq<byte>): (Wire, Answer) {
    if secret.None? then (w, Refused(E_NOTIMPL))
    else if !connected then (w, FAILED)
    else
      var (w1, accepted) := Handshake(w, secret.value);
      if !accepted then (w1, FAILED)
      else
        var (w2, ok) := Write(w1, Frame(kind, payload));
        if !ok then (w2, FAILED) else TcpReply(w2)
  }

  method RequestOverTcp(socket: Socket, secret: Option<seq<byte>>, connected: bool, kind: nat, payload: seq<byte>)
    returns (answer: Answer)
    modifies socket
    ensures (socket.View(), answer) == TcpRequest(old(socket.View()), secret, connected, kind, payload)
  {
    if secret.None? {
      return Refused(E_NOTIMPL);
    }
    if !connected {
      return FAILED;
    }
    var accepted := PerformHandshake(socket, secret.value);
    if !accepted {
      return FAILED;
    }
    var ok := socket.WriteAll(Frame(kind, payload));
    if !ok {
      return FAILED;
    }
    answer := ReceiveOverTcp(socket);
  }

  method PerformHandshake(socket: Socket, secret: seq<byte>) returns (accepted: bool)
    modifies socket
    ensures (socket.View(), accepted) == Handshake(old(socket.View()), secret)
  {
    var ok := socket.WriteAll(ToBytes(HANDSHAKE_MAGIC, 4));
    if !ok {
      return false;
    }
    ok := socket.WriteAll(secret);
    if !ok {
      return false;
    }
    var verdict := new byte[1];
    ok := socket.ReadExact(verdict);
    accepted := ok && verdict[..][0] == ACCEPTED;
  }

  method ReceiveOverTcp(socket: Socket) returns (answer: Answer)
    modifies socket
    ensures (socket.View(), answer) == TcpReply(old(socket.View()))
  {
    var magic := new byte[4];
    var ok := socket.ReadExact(magic);
    if !ok || FromBytes(magic[..]) != XML_MAGIC {
      return FAILED;
    }
    var header := new byte[6];
    ok := socket.ReadExact(header);
    if !ok {
      return FAILED;
    }
    ghost var h := header[..];
    assert header[0..2] == h[0..2] && header[2..6] == h[2..6];
    var kind, size := FromBytes(header[0..2]), FromBytes(header[2..6]);
    if size > MAX_MESSAGE_SIZE {
      return FAILED;
    }
    var body := new byte[size];
    ok := socket.ReadExact(body);
    answer := if ok then Answered(kind, body[..]) else FAILED;
  }

  // ---- the Unix socket ---------------------------------------------------------------

  // IoError stands for a socket call that failed or timed out, and for a close mid-message.
  datatype Status =
    | Success
    | InvalidParameter
    | BufferTooSmall
    | IoError
    | IoTimeout
    | ConnectionRefused
    | NameNotFound
    | AccessDenied
    | InvalidNetworkResponse

  // What an exchange is called with besides the message: the addresses of the socket's path
  // and of the request, the timeout, and how connecting turns out.
  datatype Target = Target(path: nat, request: nat, timeoutMs: nat, connect: Status)

  predicate Acceptable(t: Target, size: nat) {
    t.path != 0 && t.timeoutMs != 0 && size <= MAX_MESSAGE_SIZE && (size > 0 ==> t.request != 0)
  }

  function UnixReply(w: Wire): (r: (Wire, Status, Answer))
    ensures r.1.Success? <==> r.2.Answered?
    ensures !r.1.Success? ==> r.2 == FAILED
  {
    var (w1, header) := Read(w, 10);
    if header.None? then (w1, IoError, FAILED)
    else if FromBytes(header.value[0..4]) != XML_MAGIC then (w1, InvalidNetworkResponse, FAILED)
    else if FromBytes(header.value[6..10]) > MAX_MESSAGE_SIZE then (w1, InvalidNetworkResponse, FAILED)
    else
      var (w2, body) := Read(w1, FromBytes(header.value[6..10]));
      if body.None? then (w2, IoError, FAILED)
      else (w2, Success, Answered(FromBytes(header.value[4..6]), body.value))
  }

  function UnixExchange(w: Wire, t: Target, kind: nat, payload: seq<byte>): (r: (Wire, Status, Answer))
    ensures r.1.Success? <==> r.2.Answered?
    ensures !r.1.Success? ==> r.2 == FAILED
  {
    if !Acceptable(t, |payload|) then (w, InvalidParameter, FAILED)
    else if !t.connect.Success? then (w, t.connect, FAILED)
    else
      var (w1, ok) := Write(w, Frame(kind, payload));
      if !ok then (w1, IoError, FAILED) else UnixReply(w1)
  }

  // The caller rounds a timeout of less than a millisecond up to one.
  function AtLeastOneMs(t: Target): Target {
    if t.timeoutMs == 0 then t.(timeoutMs := 1) else t
  }

  // What the caller on the other side of the boundary makes of it.
  function UnixRequest(w: Wire, available: bool, t: Target, kind: nat, payload: seq<byte>): (Wire, Answer) {
    if !available then (w, FAILED)
    else
      var (w1, status, answer) := UnixExchange(w, AtLeastOneMs(t), kind, payload);
      (w1, answer)
  }

  // The native side: replies parked between an exchange and the fetch that releases them.
  class NativeSide {
    var parked: map<nat, seq<byte>>

    // No reply is parked at the null address.
    ghost predicate Valid()
      reads this
    {
      0 !in parked
    }

    constructor ()
      ensures Valid() && parked == map[]
    {
      parked := map[];
    }

    // `address` is where the allocator puts the reply if there is one to park.
    method Exchange(socket: Socket, t: Target, kind: nat, payload: seq<byte>, address: nat)
      returns (status: Status, replyType: nat, replyLen: nat, replyHandle: nat)
      requires Valid() && address != 0 && address !in parked
      modifies this, socket
      ensures Valid()
      ensures var (w, s, answer) := UnixExchange(old(socket.View()), t, kind, payload);
              && socket.View() == w && status == s
              && (status.Success? ==>
                    && answer == Answered(replyType, answer.body) && replyLen == |answer.body|
                    && replyHandle == address && parked == old(parked)[address := answer.body])
              && (!status.Success? ==> replyHandle == 0 && replyLen == 0 && replyType == 0 && parked == old(parked))
    {
      replyType, replyLen, replyHandle := 0, 0, 0;
      if t.path == 0 || t.timeoutMs == 0 {
        return InvalidParameter, 0, 0, 0;
      }
      if |payload| > MAX_MESSAGE_SIZE || (|payload| > 0 && t.request == 0) {
        return InvalidParameter, 0, 0, 0;
      }
      if !t.connect.Success? {
        return t.connect, 0, 0, 0;
      }
      var ok := socket.WriteAll(Frame(kind, payload));
      if !ok {
        return IoError, 0, 0, 0;
      }
      var answer;
      status, answer := ReceiveOverUnix(socket);
      if status.Success? {
        replyType, replyLen, replyHandle := answer.kind, |answer.body|, address;
        parked := parked[address := answer.body];
      }
    }

    // Always releases the reply, whether or not it can be copied out.
    method FetchReply(handle: nat, buffer: array?<byte>, bufferLen: nat) returns (status: Status)
      requires Valid() && (handle == 0 || handle in parked)
      requires buffer != null ==> buffer.Length >= bufferLen
      modifies this, if buffer == null then {} else {buffer}
      ensures Valid() && parked == old(parked) - {handle}
      ensures status ==
                if handle == 0 then InvalidParameter
                else if bufferLen < |old(parked)[handle]| then BufferTooSmall
                else if old(parked)[handle] != [] && buffer == null then InvalidParameter
                else Success
      ensures status.Success? && buffer != null ==>
                buffer[..] == old(parked)[handle] + old(buffer[|parked[handle]|..])
      ensures !status.Success? && buffer != null ==> buffer[..] == old(buffer[..])
    {
      if handle == 0 {
        assert parked - {0} == parked;
        return InvalidParameter;
      }
      var body := parked[handle];
      parked := parked - {handle};
      if bufferLen < |body| {
        return BufferTooSmall;
      }
      if body == [] {
        return Success;
      }
      if buffer == null {
        return InvalidParameter;
      }
      CopyInto(buffer, 0, body);
      status := Success;
    }
  }

  method ReceiveOverUnix(socket: Socket) returns (status: Status, answer: Answer)
    modifies socket
    ensures (socket.View(), status, answer) == UnixReply(old(socket.View()))
    ensures status.Success? <==> answer.Answered?
  {
    var header := new byte[10];
    var ok := socket.ReadExact(header);
    if !ok {
      return IoError, FAILED;
    }
    ghost var h := header[..];
    assert header[0..4] == h[0..4] && header[4..6] == h[4..6] && header[6..10] == h[6..10];
    if FromBytes(header[0..4]) != XML_MAGIC {
      return InvalidNetworkResponse, FAILED;
    }
    var kind, size := FromBytes(header[4..6]), FromBytes(header[6..10]);
    if size > MAX_MESSAGE_SIZE {
      return InvalidNetworkResponse, FAILED;
    }
    var body := new byte[size];
    ok := socket.ReadExact(body);
    if !ok {
      return IoError, FAILED;
    }
    return Success, Answered(kind, body[..]);
  }

  // The two calls together: whatever happens, the parked replies are what they were.
  method RequestOverUnix(native: NativeSide, socket: Socket, available: bool, t: Target, kind: nat,
                         payload: seq<byte>, address: nat)
    returns (answer: Answer)
    requires native.Valid() && address != 0 && address !in native.parked
    modifies native, socket
    ensures native.Valid()
    ensures (socket.View(), answer) == UnixRequest(old(socket.View()), available, t, kind, payload)
    ensures native.parked == old(native.parked)
  {
    if !available {
      return FAILED;
    }
    var status, replyType, replyLen, replyHandle := native.Exchange(socket, AtLeastOneMs(t), kind, payload, address);
    if !status.Success? {
      return FAILED;
    }
    var body := new byte[replyLen];
    ghost var reply := native.parked[replyHandle];
    status := native.FetchReply(replyHandle, body, replyLen);
    assert body[..] == reply + [] == reply;
    assert native.parked == old(native.parked);
    answer := if status.Success? then Answered(replyType, body[..]) else FAILED;
  }
}
