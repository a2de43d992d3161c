// The remote-call channel: little-endian marshalling with bounds assertions, and the buffer that
// reassembles length-prefixed frames from arbitrary fragments.
module Rpc {
  import opened Basics
  import opened LittleEndian

  // Size of the reassembly buffer and of a call's output buffer.
  const CAPACITY := 163840

  // What a call may push: a 32-bit number or pointer, or a 16-bit number.
  datatype Value = U32(v32: uint32) | U16(v16: uint16)

  function Encode1(v: Value): (b: seq<byte>)
    ensures |b| == (if v.U32? then 4 else 2)
  {
    match v
    case U32(n) => Bytes32(n)
    case U16(n) => Bytes16(n)
  }

  function Encode(vs: seq<Value>): (b: seq<byte>)
    ensures |b| % 2 == 0
  {
    if vs == [] then [] else Encode1(vs[0]) + Encode(vs[1..])
  }

  lemma {:induction false} EncodeAppend(vs: seq<Value>, v: Value)
    ensures Encode(vs + [v]) == Encode(vs) + Encode1(v)
  {
    hide Encode1;
    if vs == [] {
      assert vs + [v] == [v];
      assert [v][1..] == [];
    } else {
      EncodeAppend(vs[1..], v);
      assert (vs + [v])[1..] == vs[1..] + [v];
    }
  }

  // A frame: total length, call number, sequence number, then the payload.
  datatype Frame = Frame(call: uint32, seqno: uint32, payload: seq<byte>)

  function FrameBytes(f: Frame): seq<byte>
    requires 12 + |f.payload| < 0x1_0000_0000
  {
    Bytes32(12 + |f.payload|) + Bytes32(f.call) + Bytes32(f.seqno) + f.payload
  }

  // The reply to a request: call number zero, the request's sequence number, the pushed values and
  // one trailing zero byte.
  function ReplyTo(seqno: uint32, vs: seq<Value>): Frame
  {
    Frame(0, seqno, Encode(vs) + [0])
  }

  class RpcCall {
    const buf: array<byte>
    const base: nat
    const len: nat
    var off: nat
    const outbase: array<byte>
    var outoff: nat

    // Values pushed so far.
    ghost var pushed: seq<Value>

    ghost predicate Valid()
      reads this, outbase
    {
      && base + len <= buf.Length && outbase.Length == CAPACITY && outbase != buf
      && outoff == 12 + |Encode(pushed)| && outoff < CAPACITY
      && outbase[12..outoff] == Encode(pushed)
    }

    // The bytes not yet popped.
    ghost function Input(): seq<byte>
      requires base + len <= buf.Length
      reads this, buf
    {
      if off <= len then buf[base + off..base + len] else []
    }

    constructor (buf: array<byte>, base: nat, len: nat)
      requires base + len <= buf.Length
      ensures Valid() && fresh(outbase) && this.buf == buf && this.base == base && this.len == len
      ensures off == 0 && pushed == []
    {
      this.buf, this.base, this.len, off := buf, base, len, 0;
      outoff := 12;
      outbase := new byte[CAPACITY];
      pushed := [];
    }

    method Push32(v: uint32) returns (r: Outcome)
      requires Valid()
      modifies this`outoff, this`pushed, outbase
      ensures r == if old(outoff) + 4 < CAPACITY then Done else Aborted
      ensures Valid() && pushed == old(pushed) + (if r.Done? then [U32(v)] else [])
    {
      hide Encode, Byte0, Byte1, Byte2, Byte3;
      if !(outoff + 4 < CAPACITY) { return Aborted; }
      ghost var before := outbase[12..outoff];
      outbase[outoff] := Byte0(v);
      outbase[outoff + 1] := Byte1(v);
      outbase[outoff + 2] := Byte2(v);
      outbase[outoff + 3] := Byte3(v);
      outoff := outoff + 4;
      assert outbase[12..outoff] == before + Encode1(U32(v));
      EncodeAppend(pushed, U32(v));
      pushed := pushed + [U32(v)];
      return Done;
    }

    method Push16(v: uint16) returns (r: Outcome)
      requires Valid()
      modifies this`outoff, this`pushed, outbase
      ensures r == if old(outoff) + 2 < CAPACITY then Done else Aborted
      ensures Valid() && pushed == old(pushed) + (if r.Done? then [U16(v)] else [])
    {
      hide Encode, Byte0, Byte1, Byte2, Byte3;
      if !(outoff + 2 < CAPACITY) { return Aborted; }
      ghost var before := outbase[12..outoff];
      outbase[outoff] := Byte0(v);
      outbase[outoff + 1] := Byte1(v);
      outoff := outoff + 2;
      assert outbase[12..outoff] == before + Encode1(U16(v));
      EncodeAppend(pushed, U16(v));
      pushed := pushed + [U16(v)];
      return Done;
    }

    method Pop32() returns (r: Outcome, v: uint32)
      requires base + len <= buf.Length
      modifies this`off
      ensures r == if |old(Input())| > 4 then Done else Aborted
      ensures r.Done? ==> v == U32At(old(Input()), 0) && Input() == old(Input())[4..]
      ensures r.Aborted? ==> off == old(off)
    {
      hide Encode, Byte0, Byte1, Byte2, Byte3, Word16, Word32;
      v := 0;
      if !(off + 4 < len) { return Aborted, v; }
      var o := base + off;
      v := Word32(buf[o], buf[o + 1], buf[o + 2], buf[o + 3]);
      off := off + 4;
      r := Done;
    }

    method Pop16() returns (r: Outcome, v: uint16)
      requires base + len <= buf.Length
      modifies this`off
      ensures r == if |old(Input())| > 2 then Done else Aborted
      ensures r.Done? ==> v == U16At(old(Input()), 0) && Input() == old(Input())[2..]
      ensures r.Aborted? ==> off == old(off)
    {
      hide Encode, Byte0, Byte1, Byte2, Byte3, Word16, Word32;
      v := 0;
      if !(off + 2 < len) { return Aborted, v; }
      v := Word16(buf[base + off], buf[base + off + 1]);
      off := off + 2;
      r := Done;
    }

    // Closes the frame and gives the bytes handed to send().
    method Result(seqno: uint32) returns (sent: seq<byte>)
      requires Valid()
      modifies this`outoff, outbase
      ensures 13 + |Encode(pushed)| < 0x1_0000_0000 && sent == FrameBytes(ReplyTo(seqno, pushed))
      ensures |sent| == 13 + |Encode(pushed)| && sent[0..4] == Bytes32(|sent|)
      ensures sent[4..8] == [0, 0, 0, 0] && sent[8..12] == Bytes32(seqno)
      ensures sent[12..|sent| - 1] == Encode(pushed) && sent[|sent| - 1] == 0
    {
      hide Encode, Bytes32;
      outbase[outoff] := 0;
      outoff := outoff + 1;
      ghost var body := outbase[12..outoff];
      assert body == Encode(pushed) + [0];
      PutWord(0, outoff);
      PutWord(4, 0);
      assert outbase[0..4] == Bytes32(outoff);
      PutWord(8, seqno);
      assert outbase[0..4] == Bytes32(outoff) && outbase[4..8] == Bytes32(0);
      assert outbase[12..outoff] == body;
      sent := outbase[..outoff];
      assert sent[0..4] == outbase[0..4] && sent[4..8] == outbase[4..8] && sent[8..12] == outbase[8..12];
      ReadFrame(sent, ReplyTo(seqno, pushed));
      FirstByteLeast(0);
    }

    // One word of the prefix.
    method PutWord(o: nat, v: uint32)
      requires o + 4 <= 12 <= outbase.Length
      modifies outbase
      ensures outbase[o..o + 4] == Bytes32(v)
      ensures forall j :: 0 <= j < outbase.Length && !(o <= j < o + 4) ==> outbase[j] == old(outbase[j])
    {
      hide Encode, Byte0, Byte1, Byte2, Byte3, Word16, Word32;
      outbase[o] := Byte0(v);
      outbase[o + 1] := Byte1(v);
      outbase[o + 2] := Byte2(v);
      outbase[o + 3] := Byte3(v);
    }
  }

  // One pop, as the methods above specify it: a 32-bit or a 16-bit value, provided at least one more
  // byte stands behind it.
  function Pop(s: seq<byte>, wide: bool): Option<(Value, seq<byte>)>
  {
    if wide then (if |s| > 4 then Some((U32(U32At(s, 0)), s[4..])) else None)
    else (if |s| > 2 then Some((U16(U16At(s, 0)), s[2..])) else None)
  }

  // A run of pops of the given widths.
  function PopAll(s: seq<byte>, widths: seq<bool>): Option<seq<Value>>
    decreases |widths|
  {
    if widths == [] then Some([])
    else
      match Pop(s, widths[0])
      case None => None
      case Some((v, rest)) =>
        match PopAll(rest, widths[1..])
        case None => None
        case Some(vs) => Some([v] + vs)
  }

  function Widths(vs: seq<Value>): (ws: seq<bool>)
    ensures |ws| == |vs|
  {
    if vs == [] then [] else [vs[0].U32?] + Widths(vs[1..])
  }

  lemma PopFirst(v: Value, rest: seq<byte>)
    requires rest != []
    ensures Pop(Encode1(v) + rest, v.U32?) == Some((v, rest))
  {
    var s := Encode1(v) + rest;
    match v
    case U32(n) => U32Bytes(s, 0, n);
    case U16(n) => U16Bytes(s, 0, n);
  }

  // Matching pops give back what was pushed, in order, and no bound assertion fails: the byte behind
  // the last value is what the strict bound needs.
  lemma {:induction false} PopsReturnPushes(vs: seq<Value>)
    ensures PopAll(Encode(vs) + [0], Widths(vs)) == Some(vs)
    decreases |vs|
  {
    if vs != [] {
      PopsReturnPushes(vs[1..]);
      PopFirst(vs[0], Encode(vs[1..]) + [0]);
      assert Encode(vs) + [0] == Encode1(vs[0]) + (Encode(vs[1..]) + [0]);
      assert vs == [vs[0]] + vs[1..];
    }
  }

  // Without the trailing byte the last pop would fail its assertion.
  lemma {:induction false} TrailingByteNeeded(vs: seq<Value>)
    requires vs != []
    ensures PopAll(Encode(vs), Widths(vs)) == None
    decreases |vs|
  {
    var rest := Encode(vs[1..]);
    if |vs| > 1 {
      TrailingByteNeeded(vs[1..]);
      PopFirst(vs[0], rest);
    }
  }

  // A buffer whose parts are those of a frame is the frame.
  lemma ReadFrame(s: seq<byte>, f: Frame)
    requires |s| == 12 + |f.payload| < 0x1_0000_0000
    requires s[0..4] == Bytes32(|s|) && s[4..8] == Bytes32(f.call) && s[8..12] == Bytes32(f.seqno) && s[12..] == f.payload
    ensures s == FrameBytes(f)
  {
    hide Bytes32;
    assert s == s[0..4] + s[4..8] + s[8..12] + s[12..];
  }
}
