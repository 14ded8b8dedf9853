// Stream sockets as the two transports use them: sends and receives may be partial,
// interrupted or fail, and loops turn them into all-or-nothing writes and reads.

module Transport {
  import opened Bytes
  import opened Basics

  // ---- the wire ----------------------------------------------------------------------

  // What one call to send or recv does: moves at least one byte and at most `more` further
  // ones, is interrupted by a signal, or fails (a timeout included).
  datatype Event = Moves(more: nat) | Interrupted | Fails

  // A connection: what has been delivered, what the peer still has to say before it closes,
  // and how the next sends and receives will go. A spent schedule times out.
  datatype Wire = Wire(sent: seq<byte>, incoming: seq<byte>, sends: seq<Event>, recvs: seq<Event>)

  // One send: None when interrupted, Some(0) when it failed, else how much was moved.
  function SendStep(w: Wire, buf: seq<byte>): (Wire, Option<nat>) {
    if w.sends == [] then (w, Some(0))
    else
      var rest := w.(sends := w.sends[1..]);
      match w.sends[0]
      case Moves(more) =>
        var k := Least(more + 1, |buf|);
        (rest.(sent := w.sent + buf[..k]), Some(k))
      case Interrupted => (rest, None)
      case Fails => (rest, Some(0))
  }

  // One receive: None when interrupted, Some([]) when the peer has closed or it failed.
  function RecvStep(w: Wire, room: nat): (Wire, Option<seq<byte>>) {
    if w.recvs == [] then (w, Some([]))
    else
      var rest := w.(recvs := w.recvs[1..]);
      match w.recvs[0]
      case Moves(more) =>
        var k := Least(Least(more + 1, room), |w.incoming|);
        (rest.(incoming := w.incoming[k..]), Some(w.incoming[..k]))
      case Interrupted => (rest, None)
      case Fails => (rest, Some([]))
  }

  // All of a buffer, or as much of it as could be sent.
  function Write(w: Wire, buf: seq<byte>): (Wire, bool)
    decreases |w.sends|
  {
    if buf == [] then (w, true)
    else
      var (rest, moved) := SendStep(w, buf);
      if moved == Some(0) then (rest, false)
      else Write(rest, if moved.Some? then buf[moved.value..] else buf)
  }

  function Prepend(head: seq<byte>, r: (Wire, Option<seq<byte>>)): (Wire, Option<seq<byte>>) {
    (r.0, if r.1.None? then None else Some(head + r.1.value))
  }

  // Exactly `n` bytes, or None.
  function Read(w: Wire, n: nat): (r: (Wire, Option<seq<byte>>))
    ensures r.1.Some? ==> |r.1.value| == n
    decreases |w.recvs|
  {
    if n == 0 then (w, Some([]))
    else
      var (rest, bytes) := RecvStep(w, n);
      if bytes == Some([]) then (rest, None)
      else if bytes.Some? then Prepend(bytes.value, Read(rest, n - |bytes.value|))
      else Read(rest, n)
  }

  class Socket {
    var sent: seq<byte>
    var incoming: seq<byte>
    var sends: seq<Event>
    var recvs: seq<Event>

    function View(): Wire
      reads this
    {
      Wire(sent, incoming, sends, recvs)
    }

    constructor (w: Wire)
      ensures View() == w
    {
      sent, incoming, sends, recvs := w.sent, w.incoming, w.sends, w.recvs;
    }

    method Send(buf: seq<byte>) returns (moved: Option<nat>)
      requires buf != []
      modifies this
      ensures (View(), moved) == SendStep(old(View()), buf)
    {
      if sends == [] {
        return Some(0);
      }
      var event := sends[0];
      sends := sends[1..];
      match event
      case Moves(more) =>
        var k := Least(more + 1, |buf|);
        sent := sent + buf[..k];
        moved := Some(k);
      case Interrupted => moved := None;
      case Fails => moved := Some(0);
    }

    // Receives into the buffer from `at` on.
    method Recv(buf: array<byte>, at: nat) returns (moved: Option<nat>)
      requires at < buf.Length
      modifies this, buf
      ensures var (w, bytes) := RecvStep(old(View()), buf.Length - at);
              && View() == w
              && moved == (if bytes.None? then None else Some(|bytes.value|))
              && (moved.None? ==> buf[..at] == old(buf[..at]))
              && (moved.Some? ==> buf[..at + moved.value] == old(buf[..at]) + bytes.value)
    {
      if recvs == [] {
        return Some(0);
      }
      var event := recvs[0];
      recvs := recvs[1..];
      match event
      case Moves(more) =>
        var k := Least(Least(more + 1, buf.Length - at), |incoming|);
        CopyInto(buf, at, incoming[..k]);
        incoming := incoming[k..];
        moved := Some(k);
      case Interrupted => moved := None;
      case Fails => moved := Some(0);
    }

    method WriteAll(buf: seq<byte>) returns (ok: bool)
      modifies this
      ensures (View(), ok) == Write(old(View()), buf)
    {
      var i := 0;
      assert buf[0..] == buf;
      while i < |buf|
        invariant 0 <= i <= |buf|
        invariant Write(old(View()), buf) == Write(View(), buf[i..])
        decreases |sends| + |buf| - i, |buf| - i
      {
        var moved := Send(buf[i..]);
        if moved.Some? {
          if moved.value == 0 {
            return false;
          }
          assert buf[i..][moved.value..] == buf[i + moved.value..];
          i := i + moved.value;
        }
      }
      ok := true;
    }

    // One pass of the receive loop, as the rest of the read sees it.
    method ReadMore(buf: array<byte>, at: nat) returns (moved: Option<nat>)
      requires at < buf.Length
      modifies this, buf
      ensures buf[..at] == old(buf[..at])
      ensures moved.None? ==>
                Read(old(View()), buf.Length - at) == Read(View(), buf.Length - at) && |recvs| < |old(recvs)|
      ensures moved == Some(0) ==> Read(old(View()), buf.Length - at) == (View(), None)
      ensures moved.Some? && moved.value > 0 ==>
                && at + moved.value <= buf.Length
                && Read(old(View()), buf.Length - at) ==
                     Prepend(buf[at..at + moved.value], Read(View(), buf.Length - at - moved.value))
                && |recvs| < |old(recvs)|
    {
      ghost var before := View();
      moved := Recv(buf, at);
      assert buf[..at] == old(buf[..at]);
      if moved.Some? {
        ghost var bytes := RecvStep(before, buf.Length - at).1.value;
        assert buf[at..at + moved.value] == buf[..at + moved.value][at..] == bytes;
      }
    }

    method ReadExact(buf: array<byte>) returns (ok: bool)
      modifies this, buf
      ensures var (w, r) := Read(old(View()), buf.Length);
              View() == w && ok == r.Some? && (ok ==> buf[..] == r.value)
    {
      var i := 0;
      ghost var whole := Read(View(), buf.Length);
      PrependNothing(whole);
      while i < buf.Length
        invariant 0 <= i <= buf.Length
        invariant whole == Prepend(buf[..i], Read(View(), buf.Length - i))
        decreases |recvs|
      {
        ghost var head := buf[..i];
        var moved := ReadMore(buf, i);
        if moved == Some(0) {
          return false;
        }
        if moved.Some? {
          ghost var bytes := buf[i..i + moved.value];
          PrependTwice(head, bytes, Read(View(), buf.Length - i - moved.value));
          assert buf[..i + moved.value] == head + bytes;
          i := i + moved.value;
        }
      }
      assert buf[..i] == buf[..];
      ok := true;
    }
  }

  method CopyInto(buf: array<byte>, at: nat, bytes: seq<byte>)
    requires at + |bytes| <= buf.Length
    modifies buf
    ensures buf[..at + |bytes|] == old(buf[..at]) + bytes
    ensures buf[at + |bytes|..] == old(buf[at + |bytes|..])
  {
    var m := 0;
    while m < |bytes|
      invariant 0 <= m <= |bytes|
      invariant buf[..at + m] == old(buf[..at]) + bytes[..m]
      invariant buf[at + |bytes|..] == old(buf[at + |bytes|..])
    {
      buf[at + m] := bytes[m];
      m := m + 1;
    }
    assert bytes[..m] == bytes;
  }

  lemma PrependNothing(r: (Wire, Option<seq<byte>>))
    ensures Prepend([], r) == r
  {
    if r.1.Some? {
      assert [] + r.1.value == r.1.value;
    }
  }

  lemma PrependTwice(a: seq<byte>, b: seq<byte>, r: (Wire, Option<seq<byte>>))
    ensures Prepend(a, Prepend(b, r)) == Prepend(a + b, r)
  {
    if r.1.Some? {
      assert a + (b + r.1.value) == a + b + r.1.value;
    }
  }
}
