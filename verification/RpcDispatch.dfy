// Reassembly of frames from fragments: the dispatch loop against a parse of everything received.
module RpcDispatch {
  import opened Basics
  import opened LittleEndian
  import opened Rpc

  // Length word of the frame at the front.
  function Length(s: seq<byte>): uint32
    requires |s| >= 4
  {
    U32At(s, 0)
  }

  // The loop dispatches what stands at the front, and gets on by it.
  predicate Ready(s: seq<byte>)
  {
    |s| >= 4 && 0 < Length(s) < CAPACITY && Length(s) <= |s|
  }

  // What is dispatched: a frame, or the few bytes of one whose length word is too short for a header.
  // For these too the handler is called and a reply sent, under a header that is not all its own.
  datatype Unit = Whole(frame: Frame) | Short(length: nat)

  function First(s: seq<byte>): Unit
    requires Ready(s)
  {
    if Length(s) < 12 then Short(Length(s)) else Whole(Frame(U32At(s, 4), U32At(s, 8), s[12..Length(s)]))
  }

  // Everything dispatched from the front of a byte stream, and the bytes behind it.
  function Units(s: seq<byte>): seq<Unit>
    decreases |s|
  {
    if Ready(s) then [First(s)] + Units(s[Length(s)..]) else []
  }

  function Residue(s: seq<byte>): (r: seq<byte>)
    ensures !Ready(r)
    decreases |s|
  {
    if Ready(s) then Residue(s[Length(s)..]) else s
  }

  // Why the loop does not get on by what stands at the front.
  datatype Stop = Waits | Oversized | Zero

  function StopAt(r: seq<byte>): Stop
    requires !Ready(r)
  {
    if |r| < 4 then Waits
    else if Length(r) >= CAPACITY then Oversized
    else if |r| < Length(r) then Waits
    else Zero
  }

  // Bytes taken up by what is dispatched.
  function Size(us: seq<Unit>): nat
  {
    if us == [] then 0
    else (match us[0] case Whole(f) => 12 + |f.payload| case Short(n) => n) + Size(us[1..])
  }

  lemma ReadyExtends(a: seq<byte>, b: seq<byte>)
    requires Ready(a)
    ensures Ready(a + b) && First(a + b) == First(a)
    ensures (a + b)[Length(a + b)..] == a[Length(a)..] + b
  {
    LengthHere(a + b, |a|);
    assert (a + b)[..|a|] == a && Length(a + b) == Length(a);
    hide Length, Word32;
    assert Length(a) >= 12 ==> (a + b)[12..Length(a)] == a[12..Length(a)];
  }

  // Parsing may stop anywhere and resume from the residue.
  lemma {:induction false} UnitsAppend(a: seq<byte>, b: seq<byte>)
    ensures Units(a + b) == Units(a) + Units(Residue(a) + b)
    ensures Residue(a + b) == Residue(Residue(a) + b)
    decreases |a|
  {
    if Ready(a) {
      ReadyExtends(a, b);
      UnitsAppend(a[Length(a)..], b);
    }
  }

  // Bytes in = bytes dispatched + residue.
  lemma {:induction false} Conservation(s: seq<byte>)
    ensures |s| == Size(Units(s)) + |Residue(s)|
    decreases |s|
  {
    if Ready(s) {
      Conservation(s[Length(s)..]);
    }
  }

  function Concat(frags: seq<seq<byte>>): seq<byte>
  {
    if frags == [] then [] else frags[0] + Concat(frags[1..])
  }

  // What is dispatched when fragments arrive one at a time, each appended to what is left over.
  function Fed(left: seq<byte>, frags: seq<seq<byte>>): seq<Unit>
    decreases |frags|
  {
    if frags == [] then [] else Units(left + frags[0]) + Fed(Residue(left + frags[0]), frags[1..])
  }

  // However a stream is cut into fragments, the same units are dispatched in the same order.
  lemma {:induction false} FragmentationIndependent(left: seq<byte>, frags: seq<seq<byte>>)
    requires !Ready(left)
    ensures Fed(left, frags) == Units(left + Concat(frags))
    decreases |frags|
  {
    hide Ready, First, Length;
    if frags == [] {
      assert left + Concat(frags) == left;
      assert Units(left) == [];
    } else {
      var a, b := left + frags[0], Concat(frags[1..]);
      assert Fed(left, frags) == Units(a) + Fed(Residue(a), frags[1..]);
      assert left + Concat(frags) == a + b;
      hide *;
      FragmentationIndependent(Residue(a), frags[1..]);
      UnitsAppend(a, b);
    }
  }

  // A frame that fits is delimited exactly, whatever follows it.
  lemma FrameDelimited(f: Frame, more: seq<byte>)
    requires 12 + |f.payload| < CAPACITY
    ensures var s := FrameBytes(f) + more;
      Ready(s) && First(s) == Whole(f) && s[Length(s)..] == more
  {
    var s := FrameBytes(f) + more;
    U32Bytes(s, 0, 12 + |f.payload|);
    U32Bytes(s, 4, f.call);
    U32Bytes(s, 8, f.seqno);
  }

  // Every reply that the push assertions let through is accepted by the other side's dispatch: the
  // pushed bytes are even in number, so the trailing byte cannot take the frame to the capacity.
  lemma ReplyDelimited(seqno: uint32, vs: seq<Value>, more: seq<byte>)
    requires 12 + |Encode(vs)| < CAPACITY
    ensures var f := ReplyTo(seqno, vs);
      12 + |f.payload| < CAPACITY
    ensures var f := ReplyTo(seqno, vs);
      var s := FrameBytes(f) + more;
      Ready(s) && First(s) == Whole(f) && s[Length(s)..] == more
  {
    hide Ready, First, FrameBytes, Length, Encode;
    assert |Encode(vs)| % 2 == 0;
    FrameDelimited(ReplyTo(seqno, vs), more);
  }

  function Wholes(fs: seq<Frame>): (us: seq<Unit>)
    ensures |us| == |fs| && forall k :: 0 <= k < |fs| ==> us[k] == Whole(fs[k])
  {
    seq(|fs|, k requires 0 <= k < |fs| => Whole(fs[k]))
  }

  lemma {:induction false} ManyFrames(fs: seq<Frame>)
    requires forall k :: 0 <= k < |fs| ==> 12 + |fs[k].payload| < CAPACITY
    ensures Units(StreamOf(fs)) == Wholes(fs) && Residue(StreamOf(fs)) == []
    decreases |fs|
  {
    hide First, FrameBytes, Length;
    if fs != [] {
      hide Ready;
      FrameDelimited(fs[0], StreamOf(fs[1..]));
      ManyFrames(fs[1..]);
      assert Wholes(fs) == [Whole(fs[0])] + Wholes(fs[1..]);
    }
  }

  function StreamOf(fs: seq<Frame>): seq<byte>
    requires forall k :: 0 <= k < |fs| ==> 12 + |fs[k].payload| < CAPACITY
  {
    if fs == [] then [] else FrameBytes(fs[0]) + StreamOf(fs[1..])
  }

  // The rest of the buffer after n passes of the loop, for any length words at all.
  ghost predicate Exits(s: seq<byte>)
  {
    |s| < 4 || Length(s) >= CAPACITY || |s| < Length(s)
  }

  ghost function After(s: seq<byte>, n: nat): seq<byte>
  {
    if n == 0 || Exits(s) then s else After(s[Length(s)..], n - 1)
  }

  // Taking frames off the front reaches a zero length word.
  ghost predicate HitsZero(s: seq<byte>)
    decreases |s|
  {
    !Exits(s) && (Length(s) == 0 || HitsZero(s[Length(s)..]))
  }

  // The loop ends exactly when no zero length word is reached.
  lemma {:induction false} LoopEndsIff(s: seq<byte>)
    ensures (exists n: nat :: Exits(After(s, n))) <==> !HitsZero(s)
  {
    if HitsZero(s) {
      forall n: nat
        ensures !Exits(After(s, n))
      {
        NeverExits(s, n);
      }
    } else {
      var n := PassesNeeded(s);
      assert exists m: nat :: Exits(After(s, m));
    }
  }

  lemma {:induction false} NeverExits(s: seq<byte>, n: nat)
    requires HitsZero(s)
    ensures !Exits(After(s, n))
    decreases n
  {
    if n > 0 {
      if Length(s) == 0 {
        assert s[Length(s)..] == s;
      }
      NeverExits(s[Length(s)..], n - 1);
    }
  }

  lemma {:induction false} PassesNeeded(s: seq<byte>) returns (n: nat)
    requires !HitsZero(s)
    ensures Exits(After(s, n))
    decreases |s|
  {
    n := 0;
    if !Exits(s) {
      var m := PassesNeeded(s[Length(s)..]);
      n := m + 1;
    }
  }

  // The zero length word is the one that getting on from unit to unit ends at.
  lemma {:induction false} ZeroIsHit(s: seq<byte>)
    ensures StopAt(Residue(s)) == Zero <==> HitsZero(s)
    decreases |s|
  {
    if Ready(s) {
      ZeroIsHit(s[Length(s)..]);
    }
  }

  // Four zero bytes make the loop spin.
  lemma ZerosSpin(s: seq<byte>)
    requires s == [0, 0, 0, 0]
    ensures HitsZero(s) && forall n: nat :: !Exits(After(s, n))
  {
    forall n: nat
      ensures !Exits(After(s, n))
    {
      NeverExits(s, n);
    }
  }

  datatype Result = Returned | BufferOverrun | Reentered | FrameOversized | Spins | CallAborted

  function Verdict(stop: Stop): Result
  {
    match stop
    case Waits => Returned
    case Oversized => FrameOversized
    case Zero => Spins
  }

  // One call of the handler: the call number and the bytes it was given, the values it pushed, and the
  // sequence number of the reply.
  datatype Exchange = Exchange(call: uint32, input: seq<byte>, seqno: uint32, pushed: seq<Value>)

  // Whatever was dispatched has its reply, in order; for a frame the handler was given its call number
  // and payload, and the reply carries its sequence number.
  predicate Replied(sent: seq<seq<byte>>, handled: seq<Unit>, calls: seq<Exchange>)
  {
    && |sent| == |handled| == |calls|
    && (forall k :: 0 <= k < |calls| ==> 13 + |Encode(calls[k].pushed)| < 0x1_0000_0000)
    && (forall k :: 0 <= k < |calls| ==> sent[k] == FrameBytes(ReplyTo(calls[k].seqno, calls[k].pushed)))
    && (forall k :: 0 <= k < |calls| ==> Meant(handled[k], calls[k]))
  }

  predicate Meant(u: Unit, x: Exchange)
  {
    u.Whole? ==> x.call == u.frame.call && x.input == u.frame.payload && x.seqno == u.frame.seqno
  }

  lemma RepliedGrows(sent: seq<seq<byte>>, handled: seq<Unit>, calls: seq<Exchange>, reply: seq<byte>, u: Unit, x: Exchange)
    requires Replied(sent, handled, calls) && Meant(u, x)
    requires 13 + |Encode(x.pushed)| < 0x1_0000_0000 && reply == FrameBytes(ReplyTo(x.seqno, x.pushed))
    ensures Replied(sent + [reply], handled + [u], calls + [x])
  {
    hide Encode, FrameBytes, ReplyTo, Meant;
  }

  lemma UnitHere(s: seq<byte>, n: nat)
    requires n <= |s| && Ready(s[..n])
    ensures var u := First(s[..n]);
      u.Whole? ==> n >= 12 && u.frame.call == U32At(s, 4) && u.frame.seqno == U32At(s, 8) && u.frame.payload == s[12..Length(s[..n])]
  {
  }

  // Where the k-th unit of a byte stream starts.
  function StartOf(s: seq<byte>, k: nat): nat
    requires k <= |Units(s)|
    decreases k
  {
    if k == 0 then 0 else Length(s) + StartOf(s[Length(s)..], k - 1)
  }

  // A unit is what the three words and the bytes at o say.
  predicate UnitIs(s: seq<byte>, o: nat, u: Unit)
  {
    && o + 4 <= |s| && o + U32At(s, o) <= |s|
    && u == if U32At(s, o) < 12 then Short(U32At(s, o))
            else Whole(Frame(U32At(s, o + 4), U32At(s, o + 8), s[o + 12..o + U32At(s, o)]))
  }

  lemma {:induction false} UnitAt(s: seq<byte>, k: nat)
    requires k < |Units(s)|
    ensures UnitIs(s, StartOf(s, k), Units(s)[k])
    decreases k
  {
    hide Units, UnitIs, Ready, Length, First;
    FirstOrBehind(s, k);
    if k == 0 {
      FirstIs(s);
    } else {
      UnitAt(s[Length(s)..], k - 1);
      UnitBehind(s, Length(s), StartOf(s[Length(s)..], k - 1), Units(s)[k]);
    }
  }

  lemma {:induction false} FirstOrBehind(s: seq<byte>, k: nat)
    requires k < |Units(s)|
    ensures Ready(s) && Length(s) <= |s|
    ensures if k == 0 then Units(s)[k] == First(s)
            else k - 1 < |Units(s[Length(s)..])| && Units(s)[k] == Units(s[Length(s)..])[k - 1]
  {
  }

  lemma FirstIs(s: seq<byte>)
    requires Ready(s)
    ensures UnitIs(s, 0, First(s))
  {
    hide Word32;
  }

  lemma UnitBehind(s: seq<byte>, n: nat, o: nat, u: Unit)
    requires n <= |s| && UnitIs(s[n..], o, u)
    ensures UnitIs(s, n + o, u)
  {
    hide Word32;
    var t := s[n..];
    if U32At(t, o) >= 12 {
      assert t[o + 12..o + U32At(t, o)] == s[n + o + 12..n + o + U32At(t, o)];
    }
  }

  // The bytes of a reply: its length, call number zero, the sequence number, and a last zero byte.
  predicate IsReply(reply: seq<byte>, seqno: seq<byte>)
  {
    |reply| >= 13 && U32At(reply, 0) == |reply| && reply[4..8] == [0, 0, 0, 0] && reply[8..12] == seqno && reply[|reply| - 1] == 0
  }

  // Byte for byte: a frame's call number and payload went to the handler, and its sequence number is that
  // of its reply.
  predicate Carried(sent: seq<seq<byte>>, calls: seq<Exchange>, s: seq<byte>)
  {
    |sent| == |calls| <= |Units(s)|
    && forall k :: 0 <= k < |sent| ==> CarriedAt(sent[k], calls[k], s, StartOf(s, k))
  }

  predicate CarriedAt(reply: seq<byte>, x: Exchange, s: seq<byte>, o: nat)
  {
    && o + 4 <= |s| && o + U32At(s, o) <= |s|
    && (U32At(s, o) >= 12 ==>
         IsReply(reply, s[o + 8..o + 12]) && x.call == U32At(s, o + 4) && x.input == s[o + 12..o + U32At(s, o)])
  }

  lemma ReplyIs(seqno: uint32, vs: seq<Value>)
    requires 13 + |Encode(vs)| < 0x1_0000_0000
    ensures IsReply(FrameBytes(ReplyTo(seqno, vs)), Bytes32(seqno))
  {
    hide Encode, Bytes32;
    var r := FrameBytes(ReplyTo(seqno, vs));
    FirstByteLeast(0);
    assert r[0..4] == Bytes32(|r|) && r[4..8] == Bytes32(0) && r[8..12] == Bytes32(seqno);
    U32Bytes(r, 0, |r|);
  }

  lemma RepliedCarries(sent: seq<seq<byte>>, handled: seq<Unit>, calls: seq<Exchange>, s: seq<byte>)
    requires Replied(sent, handled, calls) && handled <= Units(s)
    ensures Carried(sent, calls, s)
  {
    hide Encode, FrameBytes, ReplyTo, Bytes32, U32At, Units, StartOf, IsReply;
    forall k | 0 <= k < |sent|
      ensures CarriedAt(sent[k], calls[k], s, StartOf(s, k))
    {
      UnitAt(s, k);
      assert handled[k] == Units(s)[k] && Meant(handled[k], calls[k]);
      ReplyIs(calls[k].seqno, calls[k].pushed);
      if U32At(s, StartOf(s, k)) >= 12 {
        BytesOfWord(s, StartOf(s, k) + 8);
      }
    }
  }

  class Channel {
    const pktbuf: array<byte>
    var total: nat
    // Calls of the dispatcher going on.
    var callref: nat

    // What was handed to send(), one entry a reply.
    var sent: seq<seq<byte>>

    // Everything received, what was dispatched of it, and the calls of the handler.
    ghost var received: seq<byte>
    ghost var handled: seq<Unit>
    ghost var calls: seq<Exchange>

    // Between calls: all that was received has been dispatched, in order, up to what the buffer holds,
    // which is not all there yet; and everything dispatched has its reply.
    ghost predicate Valid()
      reads this, pktbuf
    {
      && pktbuf.Length == CAPACITY && total <= CAPACITY && callref == 0
      && handled == Units(received) && pktbuf[..total] == Residue(received)
      && StopAt(pktbuf[..total]) == Waits
      && Replied(sent, handled, calls)
    }

    constructor ()
      ensures Valid() && fresh(pktbuf) && received == [] && sent == []
    {
      pktbuf := new byte[CAPACITY];
      total, callref := 0, 0;
      sent, received, handled, calls := [], [], [], [];
      new;
      assert pktbuf[..total] == [];
    }

    // Stands for rpc_call: it may pop and push as it likes, or fail an assertion of its own.
    method Call(call: uint32, rpc: RpcCall) returns (r: Outcome)
      requires rpc.Valid()
      modifies rpc`off, rpc`outoff, rpc`pushed, rpc.outbase
      ensures rpc.Valid()
    {
      rpc.off := *;
      var vs: seq<Value> := *;
      for i := 0 to |vs|
        invariant rpc.Valid()
      {
        match vs[i] {
          case U32(v) => r := rpc.Push32(v);
          case U16(v) => r := rpc.Push16(v);
        }
        if r.Aborted? { return; }
      }
      r := *;
    }

    // memcpy of a fragment to the end of what is buffered.
    method Append(fragment: seq<byte>)
      requires total + |fragment| <= pktbuf.Length
      modifies this`total, pktbuf
      ensures total == old(total) + |fragment| && pktbuf[..total] == old(pktbuf[..total]) + fragment
    {
      for j := 0 to |fragment|
        invariant total == old(total) && pktbuf[..total + j] == old(pktbuf[..total]) + fragment[..j]
      {
        pktbuf[total + j] := fragment[j];
      }
      total := total + |fragment|;
    }

    // memmove of everything behind the first off bytes to the front.
    method Drop(off: nat)
      requires off <= total <= pktbuf.Length
      modifies this`total, pktbuf
      ensures total == old(total) - off && pktbuf[..total] == old(pktbuf[off..total])
    {
      var n := total - off;
      for j := 0 to n
        invariant forall t :: 0 <= t < j ==> pktbuf[t] == old(pktbuf[..])[off + t]
        invariant forall t :: j <= t < pktbuf.Length ==> pktbuf[t] == old(pktbuf[..])[t]
      {
        pktbuf[j] := pktbuf[off + j];
      }
      total := n;
    }

    // The word at offset o of the buffer.
    method WordAt(o: nat) returns (v: uint32)
      requires o + 4 <= pktbuf.Length
      ensures v == U32At(pktbuf[..], o)
    {
      v := Word32(pktbuf[o], pktbuf[o + 1], pktbuf[o + 2], pktbuf[o + 3]);
    }

    // Handing what stands at the front to the handler, and sending the reply.  Below a header's length
    // the length passed on wraps around, and reaches at least to the end of the buffer.
    method Answer(off: nat) returns (r: Outcome)
      requires pktbuf.Length == CAPACITY && total <= CAPACITY && Replied(sent, handled, calls)
      requires Ready(pktbuf[..total]) && off == Length(pktbuf[..total])
      modifies this`sent, this`handled, this`calls
      ensures Replied(sent, handled, calls)
      ensures handled == old(handled) + (if r.Done? then [First(pktbuf[..total])] else [])
    {
      hide Encode, FrameBytes, ReplyTo, Word32, Replied;
      ghost var u := First(pktbuf[..total]);
      var seqno := WordAt(8);
      var call := WordAt(4);
      UnitHere(pktbuf[..], total);
      var rpc := new RpcCall(pktbuf, 12, if off < 12 then CAPACITY - 12 else off - 12);
      ghost var input := rpc.Input();
      r := Call(call, rpc);
      if r.Aborted? { return; }
      ghost var x := Exchange(call, input, seqno, rpc.pushed);
      var reply := rpc.Result(seqno);
      RepliedGrows(sent, handled, calls, reply, u, x);
      sent, calls, handled := sent + [reply], calls + [x], handled + [u];
    }

    // One pass of the loop: dispatch what stands at the front, reply, and close up the buffer.
    method DispatchFirst(off: nat) returns (r: Outcome)
      requires pktbuf.Length == CAPACITY && total <= CAPACITY && Replied(sent, handled, calls)
      requires Ready(pktbuf[..total]) && off == Length(pktbuf[..total])
      modifies this`total, this`sent, this`handled, this`calls, pktbuf
      ensures Replied(sent, handled, calls) && total <= CAPACITY
      ensures r.Done? ==> handled == old(handled) + [First(old(pktbuf[..total]))] && pktbuf[..total] == old(pktbuf[off..total])
      ensures r.Done? ==> total < old(total)
      ensures r.Done? ==> handled + Units(pktbuf[..total]) == old(handled) + Units(old(pktbuf[..total]))
      ensures r.Done? ==> Residue(pktbuf[..total]) == Residue(old(pktbuf[..total]))
      ensures r.Aborted? ==> handled == old(handled) && handled < handled + Units(old(pktbuf[..total]))
    {
      hide Replied, Ready, First, Length, Units, Residue;
      ghost var s := pktbuf[..total];
      Cases(s);
      r := Answer(off);
      if r.Done? {
        Drop(off);
        assert pktbuf[..total] == s[off..];
        Regroup(old(handled), First(s), Units(s[off..]));
      }
    }

    // The loop.  Spins stands for what a zero length word does: the pass leaves the buffer as it was, and
    // the same pass is made again for ever, or until a call aborts.
    method DispatchAll() returns (r: Result)
      requires pktbuf.Length == CAPACITY && total <= CAPACITY && Replied(sent, handled, calls)
      modifies this`total, this`sent, this`handled, this`calls, pktbuf
      ensures Replied(sent, handled, calls) && total <= CAPACITY && !r.BufferOverrun?
      ensures r.CallAborted? ==> handled < old(handled) + Units(old(pktbuf[..total]))
      ensures !r.CallAborted? ==> handled == old(handled) + Units(old(pktbuf[..total]))
      ensures !r.CallAborted? ==> pktbuf[..total] == Residue(old(pktbuf[..total])) && r == Verdict(StopAt(pktbuf[..total]))
    {
      hide Units, Residue, Ready, StopAt, Replied, Length, U32At, First;
      ghost var s0, all := pktbuf[..total], handled + Units(pktbuf[..total]);
      while true
        invariant total <= CAPACITY && Replied(sent, handled, calls)
        invariant handled + Units(pktbuf[..total]) == all && Residue(pktbuf[..total]) == Residue(s0)
        decreases total
      {
        ghost var s := pktbuf[..total];
        var off := WordAt(0);
        if total >= 4 { LengthHere(pktbuf[..], total); }
        Cases(s);
        if !(total < 4 || off < CAPACITY) { return FrameOversized; }
        if total < 4 || total < off { return Returned; }
        if off == 0 { return Spins; }
        var outcome := DispatchFirst(off);
        if outcome.Aborted? { return CallAborted; }
      }
    }

    // Called from inside itself, it fails an assertion.
    method Dispatch(fragment: seq<byte>) returns (r: Result)
      requires pktbuf.Length == CAPACITY && total <= CAPACITY && (callref == 0 ==> Valid())
      modifies this`total, this`callref, this`sent, this`received, this`handled, this`calls, pktbuf
      ensures r.BufferOverrun? <==> old(total) + |fragment| >= 163840
      ensures r.Reentered? <==> old(total) + |fragment| < CAPACITY && old(callref) > 0
      ensures r.Reentered? ==> handled == old(handled) && sent == old(sent)
      ensures !r.BufferOverrun? && !r.Reentered? ==> received == old(received) + fragment && Replied(sent, handled, calls)
      ensures !r.BufferOverrun? && !r.Reentered? ==> Carried(sent, calls, received)
      ensures r.Returned? ==> Valid()
      ensures r.FrameOversized? || r.Spins? ==> handled == Units(received) && r == Verdict(StopAt(Residue(received)))
      ensures r.Spins? ==> HitsZero(old(pktbuf[..total]) + fragment)
      ensures r.Returned? || r.FrameOversized? ==> !HitsZero(old(pktbuf[..total]) + fragment)
      ensures r.CallAborted? ==> handled < Units(received)
    {
      hide Units, Residue, Ready, StopAt, Replied, Length, U32At, First, HitsZero;
      if !(total + |fragment| < CAPACITY) { return BufferOverrun; }
      Append(fragment);
      if callref != 0 { return Reentered; }
      callref := callref + 1;
      UnitsAppend(received, fragment);
      ZeroIsHit(pktbuf[..total]);
      received := received + fragment;
      r := DispatchAll();
      RepliedCarries(sent, handled, calls, received);
      if r.Returned? {
        callref := callref - 1;
      }
    }
  }

  lemma Regroup(us: seq<Unit>, u: Unit, more: seq<Unit>)
    ensures us + [u] + more == us + ([u] + more)
  {
  }

  lemma LengthHere(s: seq<byte>, n: nat)
    requires 4 <= n <= |s|
    ensures Length(s[..n]) == U32At(s, 0)
  {
  }

  // What the loop finds at the front of the buffer.
  lemma Cases(s: seq<byte>)
    ensures Ready(s) <==> |s| >= 4 && 0 < Length(s) < CAPACITY && Length(s) <= |s|
    ensures Ready(s) ==> Units(s) == [First(s)] + Units(s[Length(s)..]) && Residue(s) == Residue(s[Length(s)..])
    ensures !Ready(s) ==> Units(s) == [] && Residue(s) == s
    ensures !Ready(s) && (|s| < 4 || |s| < Length(s) < CAPACITY) ==> StopAt(s) == Waits
    ensures !Ready(s) && |s| >= 4 && Length(s) >= CAPACITY ==> StopAt(s) == Oversized
    ensures !Ready(s) && |s| >= 4 && Length(s) == 0 ==> StopAt(s) == Zero
  {
    hide U32At, First;
  }
}
