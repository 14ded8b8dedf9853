// One asynchronous call and its block as objects: the 32 bytes the engine keeps in an
// XAsyncBlock, and the calls that read, finish and release a call, when nothing interleaves
// with them. The sections they run under the call's lock are the functions of
// engine_sections.dfy, which the transition system interleaves.

module EngineObject {
  import opened Results
  import opened Basics
  import opened EngineSections
  import opened Bytes
  import E = EngineSystem

  const SIGNATURE: nat := 0x5841_5359_4e43_5f31

  // The address the block's bytes name: the second word, if the first is the signature.
  function Named(bytes: seq<byte>): Option<nat>
    requires |bytes| == 32
  {
    var signature, pointer := FromBytes(bytes[0..8]), FromBytes(bytes[8..16]);
    if signature != SIGNATURE || pointer == 0 then None else Some(pointer)
  }

  class Block {
    const internal: array<byte>

    ghost predicate Valid() {
      internal.Length == 32
    }

    constructor ()
      ensures Valid() && fresh(internal) && Named(internal[..]) == None
    {
      internal := new byte[32](_ => 0);
      new;
      assert internal[..][0..8] == Zeros(8);
      ZeroBytes(8);
    }

    // `read_internal`, and the test both readers make of it.
    method Read() returns (named: Option<nat>)
      requires Valid()
      ensures named == Named(internal[..])
    {
      var signature, pointer := FromBytes(internal[0..8]), FromBytes(internal[8..16]);
      assert internal[..][0..8] == internal[0..8] && internal[..][8..16] == internal[8..16];
      if signature != SIGNATURE || pointer == 0 {
        named := None;
      } else {
        named := Some(pointer);
      }
    }

    method Fill(from: nat, bytes: seq<byte>)
      requires Valid() && from + |bytes| <= 32
      modifies internal
      ensures internal[..] == old(internal[..from]) + bytes + old(internal[from + |bytes|..])
    {
      var i := 0;
      while i < |bytes|
        invariant 0 <= i <= |bytes|
        invariant internal[..] == old(internal[..from]) + bytes[..i] + old(internal[from + i..])
      {
        internal[from + i] := bytes[i];
        i := i + 1;
      }
    }

    // Names the address, and clears the rest.
    method Write(address: nat)
      requires Valid() && 0 < address < WORD
      modifies internal
      ensures Named(internal[..]) == Some(address)
      ensures internal[16..] == Zeros(16)
    {
      var first, second := ToBytes(SIGNATURE, 8), ToBytes(address, 8);
      Fill(0, Zeros(32));
      Fill(0, first);
      assert internal[..] == first + Zeros(24);
      Fill(8, second);
      assert internal[..] == first + second + Zeros(16);
      WordRoundTrip(SIGNATURE);
      WordRoundTrip(address);
      assert internal[..][0..8] == first && internal[..][8..16] == second && internal[16..] == Zeros(16);
    }

    // `take_state`: what the block named, which it names no longer.
    method Take() returns (named: Option<nat>)
      requires Valid()
      modifies internal
      ensures named == old(Named(internal[..])) && Named(internal[..]) == None
      ensures named.None? ==> internal[..] == old(internal[..])
      ensures named.Some? ==> internal[..] == Zeros(32)
    {
      named := Read();
      if named.Some? {
        Fill(0, Zeros(32));
        assert internal[..][0..8] == Zeros(8);
        ZeroBytes(8);
      }
    }
  }

  // Where an answer to a query leaves the call.
  datatype Answer = Refused(hr: HResult) | Released(hr: HResult)

  class AsyncState {
    const block: Block
    const address: nat
    const identity: nat
    var status: HResult
    var resultSize: nat
    var canceled: bool
    var cleanedUp: bool
    var sent: seq<E.Op>

    function View(): Inner
      reads this
    {
      Inner(status, resultSize, canceled, cleanedUp)
    }

    // The call's block is well formed and names this call until its cleanup.
    ghost predicate Valid()
      reads this, block.internal
    {
      && block.Valid()
      && Named(block.internal[..]) == if cleanedUp then None else Some(address)
    }

    // XAsyncBegin up to the provider's Begin, on a block that drives no call.
    constructor Begin(block: Block, address: nat, identity: nat)
      requires block.Valid() && Named(block.internal[..]) == None && 0 < address < WORD
      modifies block.internal
      ensures Valid() && View() == FRESH && sent == [E.OpBegin]
      ensures this.block == block && this.address == address && this.identity == identity
    {
      this.block, this.address, this.identity := block, address, identity;
      status, resultSize, canceled, cleanedUp := E_PENDING, 0, false, false;
      sent := [E.OpBegin];
      new;
      block.Write(address);
    }

    // `complete_state` under the lock.
    method CompleteLocked(result: HResult, size: nat) returns (counts: bool)
      modifies this`status, this`resultSize
      ensures (View(), counts) == Complete(old(View()), result, size)
      ensures counts <==> old(status) == E_PENDING
      ensures View() == if counts then old(View()).(status := result, size := size) else old(View())
    {
      if status != E_PENDING {
        return false;
      }
      status, resultSize := result, size;
      return true;
    }

    // XAsyncCancel under its first lock: whether the provider is to be told.
    method CancelLocked() returns (tell: bool)
      modifies this`canceled
      ensures (View(), tell) == RequestCancel(old(View()))
      ensures tell <==> old(status) == E_PENDING && !old(canceled)
      ensures View() == old(View()).(canceled := old(canceled) || tell)
    {
      if status != E_PENDING || canceled {
        return false;
      }
      canceled := true;
      return true;
    }

    // `cleanup`: Cleanup is sent and the block's reference taken, the first time only.
    method Cleanup()
      requires Valid()
      modifies this`cleanedUp, this`sent, block.internal
      ensures Valid() && View() == ClaimCleanup(old(View())).0
      ensures sent == old(sent) + (if old(cleanedUp) then [] else [E.OpCleanup])
      ensures old(cleanedUp) ==> block.internal[..] == old(block.internal[..])
    {
      if cleanedUp {
        return;
      }
      cleanedUp := true;
      sent := sent + [E.OpCleanup];
      var taken := block.Take();
      assert taken == Some(address);
    }

    // XAsyncGetStatus without waiting: a finished call with nothing to fetch is released.
    method GetStatus() returns (hr: HResult)
      requires Valid()
      modifies this`cleanedUp, this`sent, block.internal
      ensures Valid() && hr == old(status)
      ensures old(status) != E_PENDING && old(resultSize) == 0 ==>
                && View() == old(View()).(cleanedUp := true) && Named(block.internal[..]) == None
                && sent == old(sent) + (if old(cleanedUp) then [] else [E.OpCleanup])
      ensures old(status) == E_PENDING || old(resultSize) != 0 ==>
                View() == old(View()) && sent == old(sent) && block.internal[..] == old(block.internal[..])
    {
      hr := status;
      if status != E_PENDING && resultSize == 0 {
        Cleanup();
      }
    }

    // XAsyncGetResultSize, over the size the caller had. The size reported for a call that
    // succeeded is exactly the room XAsyncGetResult asks for: with it the result is
    // delivered, with less it is refused as too small.
    method GetResultSize(before: nat) returns (hr: HResult, size: nat)
      ensures hr == status
      ensures size == if hr == E_PENDING then before else resultSize
      ensures hr == S_OK ==> forall room: nat :: ResultVerdict(View(), true, room).Deliver? <==> size <= room
      ensures hr == S_OK ==> forall room: nat :: ResultVerdict(View(), true, room).TooSmall? <==> room < size
    {
      if status == E_PENDING {
        return E_PENDING, before;
      }
      return status, resultSize;
    }

    // XAsyncGetResult with the provider's GetResult answering `providerHr`. A refused read
    // changes nothing and can be repeated; any other releases the call.
    method GetResult(claimed: nat, bufferSize: nat, providerHr: HResult) returns (answer: Answer, used: Option<nat>)
      requires Valid()
      modifies this`cleanedUp, this`sent, block.internal
      ensures Valid()
      ensures var verdict := ResultVerdict(old(View()), claimed == 0 || claimed == identity, bufferSize);
              && (Refuses(verdict) <==> answer.Refused?)
              && (Refuses(verdict) ==>
                    View() == old(View()) && sent == old(sent) && block.internal[..] == old(block.internal[..]))
              && (!Refuses(verdict) ==>
                    cleanedUp && Named(block.internal[..]) == None && View() == ClaimCleanup(old(View())).0)
              && (verdict.Deliver? ==>
                    && answer == Released(providerHr) && used == Some(old(resultSize)) && used.value <= bufferSize
                    && sent == old(sent) + [E.OpGetResult] + (if old(cleanedUp) then [] else [E.OpCleanup]))
              && (verdict.Failed? ==>
                    && answer == Released(old(status)) && used == None
                    && sent == old(sent) + (if old(cleanedUp) then [] else [E.OpCleanup]))
      // the errors, in the order of precedence
      ensures old(status) == E_PENDING ==> answer == Refused(E_PENDING)
      ensures old(status) != E_PENDING && old(status) != S_OK ==> answer == Released(old(status)) && used == None
      ensures old(status) == S_OK && claimed != 0 && claimed != identity ==> answer == Refused(E_INVALIDARG)
      ensures old(status) == S_OK && (claimed == 0 || claimed == identity) ==>
                answer ==
                  if bufferSize < old(resultSize) then Refused(E_NOT_SUFFICIENT_BUFFER) else Released(providerHr)
    {
      used := None;
      if status == E_PENDING {
        return Refused(E_PENDING), used;
      }
      if status != S_OK {
        answer := Released(status);
        Cleanup();
        return;
      }
      if claimed != 0 && claimed != identity {
        return Refused(E_INVALIDARG), used;
      }
      if bufferSize < resultSize {
        return Refused(E_NOT_SUFFICIENT_BUFFER), used;
      }
      sent := sent + [E.OpGetResult];
      used := Some(resultSize);
      Cleanup();
      answer := Released(providerHr);
    }
  }
}
