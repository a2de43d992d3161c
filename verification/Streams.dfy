// The download pipeline: a socket, the response being collected on it, and the plugin's stream.  The
// peer, the kernel and the plugin answer as they please.
module Streams {
  import opened Basics
  import opened FoundResponse
  import opened HttpText
  import opened StreamTrace
  import opened UrlParts

  // errno after a socket call, as far as the code looks at it.
  datatype Errno = NoError | WouldBlock | Failed

  // Size of the buffer a response's head is collected in, not counting the terminating zero.
  const HEAD := 1024
  // Size of a stream's read buffer.
  const CACHE := 65536

  // The program's globals: __stream_list, and the flag asserted clear on entry to a stream's callback.
  class Globals {
    var sockets: map<nat, SocketStream>
    var locked: bool

    // Responses not yet deleted.
    ghost var protos: set<ProtoStream>

    // The streams plugins have asked for from inside the callback going on, all they consist of, their
    // descriptors and responses, and the other descriptors and responses.
    ghost var born: set<NetStream>
    ghost var nest: set<object>
    ghost var bornSockets: map<nat, SocketStream>
    ghost var bornProtos: set<ProtoStream>
    ghost var rest: map<nat, SocketStream>
    ghost var restProtos: set<ProtoStream>

    constructor ()
      ensures sockets == map[] && !locked && protos == {} && Quiet()
    {
      sockets, locked, protos := map[], false, {};
      born, nest, bornSockets, bornProtos, rest, restProtos := {}, {}, map[], {}, map[], {};
    }

    ghost predicate Registered(s: SocketStream)
      reads this`rest
    {
      s.files in rest && rest[s.files] == s
    }

    ghost predicate Split()
      reads this`sockets, this`protos, this`bornSockets, this`bornProtos, this`rest, this`restProtos
    {
      && sockets == rest + bornSockets && rest.Keys !! bornSockets.Keys
      && protos == restProtos + bornProtos && restProtos !! bornProtos
    }

    // The streams born are ready, have been told nothing, and share nothing.
    ghost predicate Cradled()
      reads this`born, this`nest, this`bornSockets, this`bornProtos, nest
    {
      && (forall n :: n in born ==> n in nest && n.Repr <= nest && n.Running() && Named(n) && n.Rested() && n.trace == [])
      && (forall n, o :: n in born && o in n.Repr && o in born ==> o == n)
      && (forall n, m :: n in born && m in born && n != m ==> n.Repr !! m.Repr)
    }

    ghost predicate Nursery()
      reads this`born, this`nest, this`bornSockets, this`bornProtos, nest
    {
      && Cradled()
      && (forall p :: p in bornProtos ==> exists n :: n in born && n.protop == p)
      && (forall f :: f in bornSockets ==> exists n :: n in born && n.protop.stream == bornSockets[f] && n.protop.stream.files == f)
    }

    ghost predicate Named(n: NetStream)
      reads this`bornSockets, this`bornProtos, n, n.protop
    {
      && n.protop in bornProtos
      && n.protop.stream.files in bornSockets && bornSockets[n.protop.stream.files] == n.protop.stream
    }

    ghost predicate Sound()
      reads this, nest
    {
      this !in nest && Split() && Nursery()
    }

    lemma SplitIs()
      requires Split()
      ensures rest.Keys <= sockets.Keys && rest.Keys !! bornSockets.Keys && restProtos <= protos
    {
    }

    // Nothing has been asked for.
    ghost predicate Quiet()
      reads this
    {
      born == {} && nest == {} && bornSockets == map[] && bornProtos == {} && Split()
    }

    lemma QuietSound()
      requires Quiet()
      ensures Sound()
    {
    }

    // The streams born are told apart no more.
    ghost method Quieten()
      modifies this`born, this`nest, this`bornSockets, this`bornProtos, this`rest, this`restProtos
      ensures Quiet() && rest == sockets && restProtos == protos
    {
      rest, restProtos := sockets, protos;
      born, nest, bornSockets, bornProtos := {}, {}, map[], {};
    }

    // What plugins may change in a callback: there may be more streams.
    twostate predicate Grown()
      reads this
    {
      && rest == old(rest) && restProtos == old(restProtos) && locked == old(locked)
      && old(nest) <= nest && fresh(nest - old(nest)) && old(born) <= born
    }

    // NPN_GetURLNotify and, with a body, NPN_PostURLNotify; a request for a window is dropped.
    method Ask(url: Text, body: Option<Text>, window: bool) returns (ok: bool, stream: NetStream?, ghost answer: Answer)
      requires Sound() && 0 !in url
      modifies this
      ensures Sound() && Grown() && (ok <==> window || stream != null)
      ensures (stream != null <==> answer.Connecting?) && (window ==> answer.NotAsked?) && (IsHttp(url) && !window ==> !answer.NotAsked?)
      ensures born == if stream == null then old(born) else old(born) + {stream}
      ensures stream != null ==> fresh(stream) && stream.url == url && stream.trace == []
      ensures stream != null ==> Asks(stream.protop.header, url, if body.Some? then Post(body.value) else Get)
    {
      hide Nursery, Split, IsHttp, Asks, NetStream.Running, NetStream.Rested;
      if window { return true, null, NotAsked; }
      SplitIs();
      stream, answer := Launch(this, url, if body.Some? then Post(body.value) else Get);
      ok := stream != null;
      if stream != null {
        Cradle(stream, old(rest), old(restProtos));
      }
    }

    // A stream just launched joins those born.
    ghost method Cradle(n: NetStream, others: map<nat, SocketStream>, otherProtos: set<ProtoStream>)
      requires Sound() && Apart(n) && n.Running() && n.Rested() && n.trace == []
      requires n.protop.stream.files !in others && rest == others[n.protop.stream.files := n.protop.stream]
      requires n.protop !in otherProtos && restProtos == otherProtos + {n.protop}
      modifies this`born, this`nest, this`bornSockets, this`bornProtos, this`rest, this`restProtos
      ensures Sound() && rest == others && restProtos == otherProtos
      ensures born == old(born) + {n} && nest == old(nest) + n.Repr
    {
      hide NetStream.Running, NetStream.Rested, Nursery;
      var s := n.protop.stream;
      Moved(others, bornSockets, s.files, s, otherProtos, bornProtos, n.protop);
      rest, restProtos := others, otherProtos;
      bornSockets, bornProtos := bornSockets[s.files := s], bornProtos + {n.protop};
      assert Split();
      hide Split;
      born, nest := born + {n}, nest + n.Repr;
      OneMore(n);
    }

    // Nothing of it is here.
    ghost predicate Apart(n: NetStream)
      reads this`nest, n
    {
      n.Repr !! nest && this !in n.Repr
    }

    twostate predicate Joined(n: NetStream)
      reads this, n, n.protop, n.protop.stream, n.Repr, nest
    {
      && old(Apart(n)) && n.Running() && n.Rested() && n.trace == [] && unchanged(n)
      && born == old(born) + {n} && nest == old(nest) + n.Repr
      && n.protop.stream.files !in old(bornSockets) && bornSockets == old(bornSockets)[n.protop.stream.files := n.protop.stream]
      && bornProtos == old(bornProtos) + {n.protop}
      && forall o :: o in old(nest) ==> unchanged(o)
    }

    twostate lemma OneMore(n: NetStream)
      requires old(Nursery()) && Joined(n)
      ensures Nursery()
    {
      StillCradled(n);
      hide NetStream.Running, Cradled;
      forall p | p in bornProtos
        ensures exists m :: m in born && m.protop == p
      {
        if p in old(bornProtos) {
          var m :| m in old(born) && old(m.protop) == p;
          assert m in born && m.protop == p;
        } else {
          assert n in born;
        }
      }
      forall f | f in bornSockets
        ensures exists m :: m in born && m.protop.stream == bornSockets[f] && m.protop.stream.files == f
      {
        if f != n.protop.stream.files {
          var m :| m in old(born) && old(m.protop.stream) == old(bornSockets)[f] && old(m.protop.stream).files == f;
          assert m in born;
        } else {
          assert n in born;
        }
      }
    }

    twostate lemma StillCradled(n: NetStream)
      requires old(Cradled()) && Joined(n)
      ensures Cradled() && forall m :: m in old(born) ==> unchanged(m)
    {
      hide NetStream.Running;
      forall m | m in old(born)
        ensures unchanged(m) && m in old(nest) && m.Repr <= old(nest) && m.Running() && Named(m) && m.Rested() && m.trace == []
      {
        StillBorn(n, m);
      }
      assert n.Repr !! old(nest);
    }

    twostate lemma StillBorn(n: NetStream, new m: NetStream)
      requires old(Cradled()) && Joined(n) && m in old(born)
      ensures unchanged(m) && m in old(nest) && m.Repr <= old(nest) && m.Running() && Named(m) && m.Rested() && m.trace == []
    {
      hide NetStream.Running;
      assert m in old(nest) && unchanged(m) && old(m.Running());
      assert forall o :: o in m.Repr ==> o in old(nest);
      m.StillRunning();
      assert m.protop in m.Repr && m.protop.stream in m.Repr;
    }

    // Any requests at all.
    method Requests()
      requires Sound()
      modifies this
      ensures Sound() && Grown()
    {
      hide Nursery, Split;
      var k: nat :| k >= 0;
      for i := 0 to k
        invariant Sound() && Grown()
      {
        var text: Text, body: Option<Text>, window: bool := *, *, *;
        var _, _, _ := Ask(CString(text), body, window);
      }
    }
  }

  class SocketStream {
    const files: nat
    var connected: bool
    // Whether the main loop is to report that the socket can be written to.
    var watchesWrite: bool
    var closed: bool
    var lastError: Errno
    var readp: ProtoStream?
    var writep: ProtoStream?

    // All the peer sends before it closes, how much of it recv has returned, and what send has taken.
    const incoming: seq<byte>
    var pos: nat
    ghost var sent: seq<byte>

    constructor (files: nat, incoming: seq<byte>)
      ensures this.files == files && this.incoming == incoming
      ensures pos == 0 && sent == [] && !connected && !closed && readp == null && writep == null
    {
      this.files, this.incoming := files, incoming;
      watchesWrite := false;
      connected, closed, lastError, readp, writep, pos, sent := false, false, NoError, null, null, 0, [];
    }

    method Close(g: Globals)
      requires g.Split() && files !in g.bornSockets
      modifies this`closed, g`sockets, g`rest
      ensures closed && g.Split()
      ensures g.rest == if old(closed) then old(g.rest) else old(g.rest) - {files}
    {
      if !closed {
        closed := true;
        g.sockets := g.sockets - {files};
        g.rest := g.rest - {files};
      }
    }

    method Connect(g: Globals) returns (error: int)
      requires g.Split() && files !in g.sockets
      modifies this`watchesWrite, g`sockets, g`rest
      ensures g.Split() && g.rest == old(g.rest)[files := this] && watchesWrite
    {
      watchesWrite := true;
      g.sockets := g.sockets[files := this];
      g.rest := g.rest[files := this];
      error := *;
    }

    // recv: some bytes that have arrived, the end of the stream, or an error.
    method RecvData(len: nat) returns (n: int, data: seq<byte>)
      requires pos <= |incoming| && len > 0
      modifies this`pos, this`lastError
      ensures pos <= |incoming| && -1 <= n <= len && old(pos) <= pos
      ensures data == incoming[old(pos)..pos]
      ensures n == -1 ==> lastError != NoError && pos == old(pos)
      ensures n >= 0 ==> lastError == NoError && |data| == n
      ensures n == 0 ==> pos == |incoming|
    {
      if * {
        if * { lastError := WouldBlock; } else { lastError := Failed; }
        return -1, [];
      }
      lastError := NoError;
      if pos == |incoming| { return 0, []; }
      var k: nat :| 1 <= k <= len && pos + k <= |incoming|;
      data := incoming[pos..pos + k];
      pos := pos + k;
      return k, data;
    }

    // A readable socket.  heard tells whether the stream behind it was called back.
    method OnRead(g: Globals, ghost n: NetStream) returns (ghost heard: bool)
      requires n.Ready(g) && g.Quiet() && n.Rested() && n.protop.stream == this && !g.locked
      modifies n.Repr, g
      ensures n.Settled(g) && fresh(g.nest) && fresh(n.Repr - old(n.Repr)) && n.Fate(old(n.protop), heard)
      ensures (heard <==> old(n.protop).created) && watchesWrite == old(watchesWrite)
      ensures n.HeadOver(old(n.protop))
      ensures old(n.Deaf()) ==> n.StaysDeaf(old(n.protop))
    {
      hide Globals.Nursery, Globals.Split;
      connected := true;
      heard := readp.OnRead(g, n);
    }

    // A writable one: the first such event of a new socket is also the last, unless it was readable before.
    method OnWrite(g: Globals, ghost n: NetStream) returns (ghost heard: bool)
      requires n.Ready(g) && g.Quiet() && n.Rested() && n.protop.stream == this && !g.locked && watchesWrite
      modifies n.Repr, g
      ensures n.Settled(g) && fresh(g.nest) && fresh(n.Repr - old(n.Repr)) && n.Fate(old(n.protop), heard)
      ensures heard ==> old(n.protop).created && old(n.protop).error && old(n.protop).stream.lastError == Failed
      ensures heard ==> old(n.protop.headerOff < |n.protop.header|)
      ensures watchesWrite == old(connected)
      ensures old(n.Deaf()) ==> n.StaysDeaf(old(n.protop))
    {
      hide Globals.Nursery, Globals.Split;
      if !connected { watchesWrite := false; }
      connected := true;
      heard := writep.OnWrite(g, n);
    }

    method SendData(data: seq<byte>) returns (n: int)
      requires data != []
      modifies this`lastError, this`sent
      ensures n == -1 || 1 <= n <= |data|
      ensures n == -1 ==> lastError != NoError && sent == old(sent)
      ensures n >= 0 ==> lastError == NoError && sent == old(sent) + data[..n]
    {
      if * {
        if * { lastError := WouldBlock; } else { lastError := Failed; }
        return -1;
      }
      var k: nat :| 1 <= k <= |data|;
      lastError := NoError;
      sent := sent + data[..k];
      return k;
    }

    // Fills buf from off0 up to len, until recv gives nothing.
    method RecvChunk(buf: array<byte>, off0: nat, len: nat) returns (error: int, off: nat)
      requires pos <= |incoming| && off0 <= len <= buf.Length
      modifies buf, this`pos, this`lastError
      ensures off0 <= off <= len && pos == old(pos) + (off - off0) <= |incoming|
      ensures buf[..off0] == old(buf[..off0]) && buf[off0..off] == incoming[old(pos)..pos]
      ensures error > 0 ==> off == len && lastError == NoError
      ensures error == 0 ==> off0 == len || (pos == |incoming| && lastError == NoError && off < len)
      ensures error < 0 ==> error == -1 && lastError != NoError && off < len
      ensures off0 == len ==> error == 0 && lastError == old(lastError)
    {
      error, off := 0, off0;
      while off < len
        invariant off0 <= off <= len && pos == old(pos) + (off - off0) <= |incoming|
        invariant buf[..off0] == old(buf[..off0]) && buf[off0..off] == incoming[old(pos)..pos]
        invariant error >= 0 && (off > off0 ==> error > 0 && lastError == NoError)
        invariant off == off0 ==> lastError == old(lastError) && error == 0
        decreases len - off
      {
        ghost var p, head := pos, buf[off0..off];
        var data;
        error, data := RecvData(len - off);
        assert incoming[old(pos)..pos] == incoming[old(pos)..p] + data;
        if error == -1 || error == 0 { break; }
        Store(buf, off, data);
        assert buf[..off0] == buf[..off][..off0];
        assert buf[off0..off] == buf[..off][off0..] == head;
        assert buf[off0..off + error] == head + data;
        off := off + error;
      }
    }

    // The kernel's copy into the caller's buffer.
    method Store(buf: array<byte>, off: nat, data: seq<byte>)
      requires off + |data| <= buf.Length
      modifies buf
      ensures buf[..off] == old(buf[..off]) && buf[off..off + |data|] == data
    {
      for i := 0 to |data|
        invariant buf[..off] == old(buf[..off]) && buf[off..off + i] == data[..i]
      {
        buf[off + i] := data[i];
      }
    }

    // Sends header from off0 on, until send fails.
    method SendChunk(header: seq<byte>, off0: nat) returns (error: int, off: nat)
      requires off0 <= |header| && sent == header[..off0]
      modifies this`lastError, this`sent
      ensures off0 <= off <= |header| && sent == header[..off]
      ensures error >= 0 ==> off == |header| && lastError == (if off0 < |header| then NoError else old(lastError))
      ensures error < 0 ==> off < |header| && lastError != NoError
    {
      error, off := 0, off0;
      while off < |header|
        invariant off0 <= off <= |header| && sent == header[..off]
        invariant error >= 0 && lastError == if off0 < off then NoError else old(lastError)
        decreases |header| - off
      {
        error := SendData(header[off..]);
        if error == -1 { break; }
        assert header[..off + error] == header[..off] + header[off..][..error];
        off := off + error;
      }
    }
  }

  // Where a response's body starts: behind the first empty line.
  function BodyStart(response: seq<byte>): (r: Option<nat>)
    ensures r.Some? ==> 4 <= r.value <= |response|
  {
    match First(response, CRLFCRLF)
    case None => None
    case Some(i) => Some(i + 4)
  }

  // Its head: what precedes the empty line, with the last header line's own line end.
  function Head(response: seq<byte>): Text
  {
    match BodyStart(response)
    case None => []
    case Some(b) => response[..b - 2]
  }

  function Body(response: seq<byte>): seq<byte>
  {
    match BodyStart(response)
    case None => []
    case Some(b) => response[b..]
  }

  // Marks of the two video formats looked for.
  predicate IsVideo(s: seq<byte>)
    requires |s| >= 12
  {
    s[..3] == Ascii("FLV") || s[4..8] == Ascii("ftyp")
  }

  // The two marks are read in the buffer as they stand in what was received.
  lemma Marks(buf: seq<byte>, received: seq<byte>, at: nat)
    requires at + 12 <= |received| <= |buf| && buf[..|received|] == received
    ensures buf[at..at + 3] == received[at..][..3] && buf[at + 4..at + 8] == received[at..][4..8]
  {
    SamePart(buf, received, at, 0, 3);
    SamePart(buf, received, at, 4, 8);
  }

  lemma SamePart(buf: seq<byte>, received: seq<byte>, at: nat, i: nat, j: nat)
    requires i <= j && at + j <= |received| <= |buf| && buf[..|received|] == received
    ensures buf[at + i..at + j] == received[at..][i..j]
  {
    var a, b := buf[at + i..at + j], received[at..][i..j];
    forall k | 0 <= k < |a|
      ensures a[k] == b[k]
    {
      assert buf[..|received|][at + i + k] == received[at + i + k];
    }
  }

  // What to make of the head bytes received so far.
  datatype Verdict = More | Start(at: nat, video: bool) | Fail

  // The head is over: at once for a small response, with twelve bytes of body for a large one.
  function Judge(received: seq<byte>, ended: bool): Verdict
  {
    var bound := First(CString(received), CRLFCRLF);
    if bound.Some? && ContentLength(CString(received)) < 120000 then Start(bound.value + 4, false)
    else if bound.Some? && bound.value + 16 <= |received| then Start(bound.value + 4, IsVideo(received[bound.value + 4..]))
    else if ended then Fail
    else More
  }

  // A head with a stated length below 120000 is enough by itself, any other with twelve bytes behind it.
  lemma HeadEnough(received: seq<byte>, ended: bool, i: nat)
    requires First(CString(received), CRLFCRLF) == Some(i)
    ensures i + 4 <= |received| && (ContentLength(CString(received)) < 120000 ==> Judge(received, ended) == Start(i + 4, false))
    ensures ContentLength(CString(received)) >= 120000 ==>
      Judge(received, ended) == if |received| - i >= 16 then Start(i + 4, IsVideo(received[i + 4..])) else if ended then Fail else More
  {
    hide ContentLength, First, IsVideo, CString, Ascii, IsAt;
    AtEnd(CString(received), CRLFCRLF, i);
  }

  // The marks are those of Flash video and of the MP4 family.
  lemma VideoMarks(s: seq<byte>)
    requires |s| >= 12
    ensures IsVideo(s) <==> s[..3] == [70, 76, 86] || s[4..8] == [102, 116, 121, 112]
  {
    var flv, ftyp := Ascii("FLV"), Ascii("ftyp");
    assert flv == [70, 76, 86];
    assert ftyp == [102, 116, 121, 112];
    hide Ascii;
  }

  // Without its end the head is waited for, for as long as bytes may come.
  lemma HeadMissing(received: seq<byte>, ended: bool)
    requires First(CString(received), CRLFCRLF).None?
    ensures Judge(received, ended) == if ended then Fail else More
  {
    hide ContentLength, First;
  }

  lemma HeadFound(incoming: seq<byte>, pos: nat, ended: bool)
    requires pos <= |incoming| && Judge(incoming[..pos], ended).Start?
    ensures var at := Judge(incoming[..pos], ended).at;
      BodyStart(incoming) == Some(at) && at <= pos && 0 !in incoming[..at - 2]
  {
    hide ContentLength;
    var t := CString(incoming[..pos]);
    assert incoming == t + incoming[|t|..];
    FirstExtends(t, incoming[|t|..], CRLFCRLF);
    var at := First(t, CRLFCRLF).value + 4;
    assert incoming[..at - 2] == t[..at - 2];
  }

  // A response of status 302 redirects to its address, and all of it is head.
  lemma FoundRedirects(response: seq<byte>, loc: Text, ended: bool)
    requires response == Ascii(FOUND) + loc + CRLFCRLF && IsAddress(loc)
    ensures Location(Head(response)) == Some(loc) && Body(response) == []
    ensures Judge(response, ended) == Start(|response|, false)
  {
    hide Ascii, First, Location, ContentLength;
    var f := Ascii(FOUND);
    EmptyLine(f, loc);
    NoLength(f, loc);
    Redirect(f, loc);
    assert CString(response) == response by { StringOf(response); }
    assert Head(response) == f + loc + [13, 10];
  }

  lemma StringOf(s: seq<byte>)
    requires 0 !in s
    ensures CString(s) == s
  {
    assert forall k :: 0 <= k < |s| ==> s[k] in s;
  }

  // The head is being collected in buf.
  ghost predicate Collecting(buf: seq<byte>, off: nat, len: nat, incoming: seq<byte>, pos: nat)
  {
    |buf| == HEAD + 1 && len == HEAD && off == pos <= HEAD && pos <= |incoming| && buf[..off] == incoming[..pos]
  }

  // The head stands in buf as a C string, and the rest of what was collected with it waits from off on.
  ghost predicate Serving(buf: seq<byte>, off: nat, len: nat, incoming: seq<byte>, pos: nat)
  {
    && |buf| == HEAD + 1 && BodyStart(incoming).Some? && BodyStart(incoming).value <= off <= len <= HEAD
    && len <= pos <= |incoming| && (off < len ==> pos == len)
    && buf[off..len] == incoming[off..len] && CString(buf) == Head(incoming)
  }

  lemma CStringCut(s: seq<byte>, n: nat)
    requires n < |s| && s[n] == 0
    ensures CString(s) == CString(s[..n])
    decreases n
  {
    if n > 0 && s[0] != 0 {
      CStringCut(s[1..], n - 1);
      assert s[..n][1..] == s[1..][..n - 1];
    }
  }

  lemma StartServing(buf: seq<byte>, incoming: seq<byte>, pos: nat, ended: bool)
    requires Collecting(buf, pos, HEAD, incoming, pos) && Judge(incoming[..pos], ended).Start?
    ensures var at := Judge(incoming[..pos], ended).at;
      2 <= at <= pos && Serving(buf[at - 2 := 0], at, pos, incoming, pos) && BodyStart(incoming) == Some(at)
  {
    hide Judge;
    HeadFound(incoming, pos, ended);
    var at := Judge(incoming[..pos], ended).at;
    var cut := buf[at - 2 := 0];
    assert cut[..at - 2] == incoming[..at - 2];
    CStringIs(cut, at - 2);
    assert cut[at..pos] == buf[..pos][at..];
    assert incoming[at..pos] == incoming[..pos][at..];
  }

  lemma ServeMore(buf: seq<byte>, off: nat, len: nat, incoming: seq<byte>, pos: nat, n: nat)
    requires Serving(buf, off, len, incoming, pos) && n <= len - off
    ensures Serving(buf, off + n, len, incoming, pos) && buf[off..off + n] == incoming[off..off + n]
  {
    hide Head, BodyStart, CString;
    assert buf[off..off + n] == buf[off..len][..n];
    assert incoming[off..off + n] == incoming[off..len][..n];
    assert buf[off + n..len] == buf[off..len][n..];
    assert incoming[off + n..len] == incoming[off..len][n..];
  }

  class ProtoStream {
    const stream: SocketStream
    var refs: nat
    var created: bool
    var video: bool
    var error: bool
    var waitp: NetStream?
    var chunkOff: nat
    var chunkLen: nat
    var chunkBuf: array?<byte>
    var header: seq<byte>
    var headerOff: nat

    ghost var deleted: bool
    // The head has been accepted.
    ghost var found: bool

    ghost predicate Inv()
      reads this, stream, chunkBuf
    {
      && !deleted && !stream.closed && stream.pos <= |stream.incoming|
      && (chunkBuf == null ==> stream.pos == 0)
      && (!created ==> !found && !error)
      && (created && !error ==> found)
      && (chunkBuf != null && !created ==> Collecting(chunkBuf[..], chunkOff, chunkLen, stream.incoming, stream.pos))
      && (found ==> chunkBuf != null && Serving(chunkBuf[..], chunkOff, chunkLen, stream.incoming, stream.pos))
      && headerOff <= |header| && stream.sent == header[..headerOff]
      && (created || chunkBuf != null ==> stream.connected)
      && (stream.lastError == WouldBlock && Over() ==> headerOff < |header| && stream.watchesWrite)
    }

    // Where no head can be found: it is over exactly if the buffer was full, or recv met the end or failed.
    ghost predicate Gone(full: bool)
      reads this, stream
    {
      created <==> full || (!Blocked() && stream.pos < HEAD)
    }

    // The buffer for the head is full.
    predicate Full()
      reads this
    {
      chunkBuf != null && chunkOff == chunkLen
    }

    // recv is not called any more, so that an error of the socket is one of send.
    ghost predicate Over()
      reads this
    {
      error || (!created && Full())
    }

    // First byte of the response not handed on yet.
    ghost function Next(): (next: nat)
      reads this, stream, chunkBuf
      requires Inv() && found
      ensures next <= |stream.incoming|
    {
      chunkOff + stream.pos - chunkLen
    }

    constructor (files: nat, incoming: seq<byte>)
      ensures Inv() && refs == 1 && !created && waitp == null && chunkBuf == null && headerOff == 0
      ensures fresh(stream) && stream.files == files && stream.readp == null && stream.writep == null && !stream.connected
    {
      refs, created, video, error, waitp := 1, false, false, false, null;
      chunkOff, chunkLen, chunkBuf, header, headerOff := 0, 0, null, [], 0;
      deleted, found := false, false;
      stream := new SocketStream(files, incoming);
    }

    predicate Connected()
      reads this
    {
      created && !error
    }

    // What is known when a pass over the head is done.
    ghost predicate Judged(failed: bool, ended: bool)
      requires stream.pos <= |stream.incoming|
      reads this, stream, chunkBuf
    {
      if failed then stream.lastError == Failed && created && error
      else
        match Judge(stream.incoming[..stream.pos], ended)
        case More => !created
        case Start(at, v) => Connected() && chunkOff == at && chunkLen == stream.pos && video == v
        case Fail => created && error
    }

    // What a stream's end is reported with, whatever has gone wrong.
    method GetError() returns (reason: Reason)
      ensures reason == ResDone
    {
      reason := ResDone;
    }

    // response(): the head, as the C string in the buffer.
    method Response() returns (headers: Text)
      requires Inv() && Connected()
      ensures headers == Head(stream.incoming) && 0 !in headers
    {
      headers := CString(chunkBuf[..]);
    }

    // on_read while the head is not complete, up to the notification of the waiting stream.
    method Receive() returns (notify: bool, ghost failed: bool, ghost ended: bool)
      requires Inv() && !created && stream.connected
      modifies this`created, this`video, this`error, this`chunkOff, this`chunkLen, this`chunkBuf, this`found
      modifies stream`pos, stream`lastError, chunkBuf
      ensures Inv() && (chunkBuf == old(chunkBuf) || fresh(chunkBuf)) && (notify <==> created)
      ensures Judged(failed, ended) && found == Connected() && (found ==> Next() == BodyStart(stream.incoming).value)
      ensures failed <==> !old(Full()) && stream.lastError == Failed
      ensures ended <==> old(Full()) || (stream.lastError == NoError && stream.pos < 1024)
      ensures ended ==> stream.pos == |stream.incoming| || stream.pos == 1024
      ensures !notify ==> stream.lastError == WouldBlock || stream.pos == 1024
      ensures (failed ==> stream.pos < 1024) && (old(Full()) || ended || failed ==> notify)
      ensures BodyStart(stream.incoming).None? ==> Gone(old(Full())) && (notify ==> error)
    {
      hide BodyStart, CString, Head;
      failed, ended := false, false;
      if chunkBuf == null {
        chunkBuf := new byte[HEAD + 1];
        chunkLen := HEAD;
        chunkOff := 0;
        assert chunkBuf[..0] == stream.incoming[..0];
      }
      var r;
      r := Fill();
      if r == -1 && stream.lastError != WouldBlock {
        created, error, failed := true, true, true;
        return true, failed, ended;
      }
      chunkBuf[chunkOff] := 0;
      ended := r == 0;
      Examine(r == 0);
      notify := created;
      if Judge(stream.incoming[..stream.pos], ended).Start? {
        HeadFound(stream.incoming, stream.pos, ended);
      }
    }

    method Fill() returns (r: int)
      requires Inv() && !created && chunkBuf != null
      modifies this`chunkOff, stream`pos, stream`lastError, chunkBuf
      ensures Inv() && r >= -1 && (r == -1 ==> stream.lastError != NoError)
      ensures r == 0 ==> stream.pos == |stream.incoming| || stream.pos == HEAD
      ensures r == 0 ==> stream.lastError != WouldBlock || chunkOff == chunkLen
      ensures r > 0 ==> chunkOff == chunkLen && !old(Full()) && stream.lastError == NoError
      ensures r == 0 ==> if old(Full()) then stream.pos == HEAD else stream.lastError == NoError && chunkOff < chunkLen
      ensures r < 0 ==> r == -1 && !old(Full()) && chunkOff < chunkLen
    {
      var off;
      ghost var p := stream.pos;
      r, off := stream.RecvChunk(chunkBuf, chunkOff, chunkLen);
      assert chunkBuf[..off] == chunkBuf[..chunkOff] + chunkBuf[chunkOff..off];
      assert stream.incoming[..stream.pos] == stream.incoming[..p] + stream.incoming[p..stream.pos];
      chunkOff := off;
    }

    // Looks for the end of the head in what has been collected.
    method ReadHead(ended: bool) returns (v: Verdict)
      requires Inv() && !created && chunkBuf != null && chunkBuf[chunkOff] == 0
      ensures v == Judge(stream.incoming[..stream.pos], ended) && (v.Fail? ==> ended) && (v.More? ==> !ended)
    {
      hide ContentLength, CString, First, Ascii;
      ghost var received := stream.incoming[..stream.pos];
      CStringCut(chunkBuf[..], chunkOff);
      assert chunkBuf[..][..chunkOff] == received;
      var text := CString(chunkBuf[..]);
      var bound := First(text, CRLFCRLF);
      var len := ParseContentLength(text);
      if bound.Some? && len < 120000 {
        return Start(bound.value + 4, false);
      }
      if bound.Some? && chunkOff >= bound.value + 4 + 12 {
        var at := bound.value + 4;
        Marks(chunkBuf[..], received, at);
        return Start(at, chunkBuf[at..at + 3] == Ascii("FLV") || chunkBuf[at + 4..at + 8] == Ascii("ftyp"));
      }
      v := if ended then Fail else More;
    }

    // The head ends at at: the C string is closed behind the last header line.
    method Begin(at: nat, ghost ended: bool)
      requires Inv() && !created && chunkBuf != null
      requires Judge(stream.incoming[..stream.pos], ended).Start? && at == Judge(stream.incoming[..stream.pos], ended).at
      modifies this`created, this`chunkOff, this`chunkLen, this`found, chunkBuf
      ensures Inv() && Connected() && chunkOff == at && chunkLen == stream.pos && BodyStart(stream.incoming) == Some(at)
    {
      hide BodyStart, Judge, Serving, CString;
      StartServing(chunkBuf[..], stream.incoming, stream.pos, ended);
      chunkLen, chunkOff := chunkOff, at;
      created, found := true, true;
      ghost var cut := chunkBuf[..][at - 2 := 0];
      chunkBuf[at - 2] := 0;
      assert chunkBuf[..] == cut;
    }

    method Examine(ended: bool)
      requires Inv() && !created && chunkBuf != null && chunkBuf[chunkOff] == 0
      requires ended ==> stream.lastError != WouldBlock || chunkOff == chunkLen
      modifies this`created, this`video, this`error, this`chunkOff, this`chunkLen, this`found, chunkBuf
      ensures Inv() && Judged(false, ended) && found == Connected() && (found ==> Next() == BodyStart(stream.incoming).value)
      ensures ended ==> created
    {
      hide BodyStart, Judge, Serving, Collecting;
      var v := ReadHead(ended);
      match v {
        case More =>
        case Start(at, isVideo) =>
          Begin(at, ended);
          video := isVideo;
        case Fail =>
          created, error := true, true;
      }
    }

    // on_write up to the notification: more of the request.
    method Transmit() returns (notify: bool)
      requires Inv() && stream.connected && (created || chunkBuf != null ==> stream.watchesWrite)
      modifies this`headerOff, this`created, this`error, stream`lastError, stream`sent
      ensures Inv() && old(headerOff) <= headerOff && found == old(found)
      ensures notify <==> old(headerOff) < |header| && stream.lastError == Failed
      ensures if notify then created && error else created == old(created) && error == old(error)
      ensures !notify && stream.lastError == NoError && old(headerOff) < |header| ==> headerOff == |header|
      ensures old(headerOff) == |header| ==> !notify && stream.lastError == old(stream.lastError)
    {
      var writed, off := stream.SendChunk(header, headerOff);
      headerOff := off;
      if writed >= 0 || stream.lastError == WouldBlock { return false; }
      created, error := true, true;
      notify := true;
    }

    method Collect(ghost n: NetStream) returns (notify: bool)
      requires n.Running() && n.protop == this && !created && stream.connected
      modifies this`created, this`video, this`error, this`chunkOff, this`chunkLen, this`chunkBuf, this`found
      modifies stream`pos, stream`lastError, chunkBuf, n`Repr
      ensures n.Running() && fresh(n.Repr - old(n.Repr)) && (forall x: Globals :: x in n.Repr ==> x in old(n.Repr))
      ensures (notify <==> created) && (error ==> created)
      ensures !notify ==> stream.lastError == WouldBlock || stream.pos == 1024
      ensures (old(Full()) ==> notify) && (BodyStart(stream.incoming).None? ==> Gone(old(Full())) && (notify ==> error))
    {
      hide BodyStart, Head, Body, ContentLength, PhaseOf, Streamed, Serving, Collecting, Judge, Judged;
      ghost var failed, ended;
      notify, failed, ended := Receive();
      if chunkBuf != null {
        n.Repr := n.Repr + {chunkBuf};
      }
    }

    method OnRead(g: Globals, ghost n: NetStream) returns (ghost heard: bool)
      requires n.Ready(g) && g.Quiet() && n.Rested() && n.protop == this && !g.locked && stream.connected
      modifies n.Repr, g
      ensures n.Settled(g) && n.Fate(this, heard) && (heard <==> created) && stream.watchesWrite == old(stream.watchesWrite)
      ensures n.HeadOver(this)
      ensures old(n.Deaf()) ==> n.StaysDeaf(this)
    {
      hide Globals.Nursery, Globals.Split, NetStream.Ended, ProtoStream.Inv, BodyStart, Head, PhaseOf, Streamed, HeadTold, Location;
      if created {
        waitp.RecvWrapper(g);
        return true;
      }
      heard := OnHead(g, n);
    }

    // on_read while the head is not complete.
    method OnHead(g: Globals, ghost n: NetStream) returns (ghost heard: bool)
      requires n.Ready(g) && g.Quiet() && n.Rested() && n.protop == this && !g.locked && stream.connected && !created
      modifies n.Repr, g
      ensures n.Settled(g) && n.Fate(this, heard) && (heard <==> created) && stream.watchesWrite == old(stream.watchesWrite)
      ensures n.HeadOver(this)
    {
      hide Globals.Nursery, Globals.Split, NetStream.Ended, ProtoStream.Inv, BodyStart, Head, PhaseOf, Streamed, HeadTold, Location;
      g.SplitIs();
      var notify := Collect(n);
      Unmoved(g.rest, stream.files, g.restProtos, this);
      if notify {
        waitp.RecvWrapper(g);
      } else {
        g.QuietSound();
      }
      heard := notify;
    }

    method OnWrite(g: Globals, ghost n: NetStream) returns (ghost heard: bool)
      requires n.Ready(g) && g.Quiet() && n.Rested() && n.protop == this && !g.locked && stream.connected
      requires created || chunkBuf != null ==> stream.watchesWrite
      modifies n.Repr, g
      ensures n.Settled(g) && n.Fate(this, heard)
      ensures heard ==> created && error && stream.lastError == Failed && old(headerOff < |header|)
      ensures stream.watchesWrite == old(stream.watchesWrite)
      ensures old(n.Deaf()) ==> n.StaysDeaf(this)
    {
      hide Globals.Nursery, Globals.Split, NetStream.Ended, ProtoStream.Inv, BodyStart, Head, PhaseOf, Streamed, HeadTold, Location;
      g.SplitIs();
      var notify := Transmit();
      Unmoved(g.rest, stream.files, g.restProtos, this);
      if notify {
        waitp.RecvWrapper(g);
      } else {
        g.QuietSound();
      }
      heard := notify;
    }

    method SetRequest(text: seq<byte>)
      requires Inv() && !stream.connected && headerOff == 0
      modifies this`header, stream`readp
      ensures Inv() && header == text && stream.readp == this
    {
      // The request is sent at once only on a socket already connected, and a new one is not.
      header := text;
      stream.readp := this;
    }

    method RecvWait(wait: NetStream?)
      modifies this`waitp
      ensures waitp == wait && (old(Inv()) ==> Inv())
    {
      waitp := wait;
    }

    method Ref()
      requires refs > 0
      modifies this`refs
      ensures refs == old(refs) + 1 && (old(Inv()) ==> Inv())
    {
      refs := refs + 1;
    }

    method Rel(g: Globals)
      requires Inv() && refs > 0 && g.Split() && g.Registered(stream) && this in g.restProtos
      modifies this`refs, this`deleted, stream`closed, g`sockets, g`protos, g`rest, g`restProtos
      ensures refs == old(refs) - 1 && deleted == (refs == 0) && g.Split()
      ensures refs > 0 ==> Inv() && g.rest == old(g.rest) && g.restProtos == old(g.restProtos)
      ensures refs == 0 ==> g.rest == old(g.rest) - {stream.files} && g.restProtos == old(g.restProtos) - {this}
    {
      refs := refs - 1;
      if refs == 0 {
        stream.Close(g);
        deleted := true;
        g.protos := g.protos - {this};
        g.restProtos := g.restProtos - {this};
      }
    }

    // What recv hands to the plugin's stream: first what was collected with the head.
    method RecvData(len: nat) returns (n: int, data: seq<byte>)
      requires Inv() && len > 0
      modifies this`chunkOff, stream`pos, stream`lastError
      ensures Inv() && -1 <= n <= len
      ensures found ==> old(Next()) <= Next() && data == stream.incoming[old(Next())..Next()]
      ensures n == -1 ==> data == [] && (error || !created || stream.lastError != NoError)
      ensures error ==> stream.lastError == old(stream.lastError) && stream.pos == old(stream.pos)
      ensures n >= 0 ==> Connected() && |data| == n
      ensures n == 0 ==> Next() == |stream.incoming| && stream.lastError == NoError
    {
      hide Head, BodyStart, CString, Collecting;
      if created {
        if error { return -1, []; }
        if chunkOff < chunkLen {
          n := if len + chunkOff > chunkLen then chunkLen - chunkOff else len;
          data := chunkBuf[chunkOff..chunkOff + n];
          ServeMore(chunkBuf[..], chunkOff, chunkLen, stream.incoming, stream.pos, n);
          chunkOff := chunkOff + n;
          return n, data;
        }
        n, data := stream.RecvData(len);
        return n, data;
      }
      return -1, [];
    }

    predicate Blocked()
      reads this, stream
    {
      stream.lastError == WouldBlock
    }
  }

  lemma FreeDescriptor(m: map<nat, SocketStream>)
    ensures exists fd: nat :: fd !in m
  {
    ghost var n := Above(m.Keys);
    assert n !in m;
  }

  lemma {:induction false} Above(s: set<nat>) returns (n: nat)
    ensures forall k :: k in s ==> k < n
  {
    n := 0;
    if s != {} {
      var x :| x in s;
      var m := Above(s - {x});
      n := if m > x then m else x + 1;
      assert forall k :: k in s ==> k == x || k in s - {x};
    }
  }

  // A proto_stream with its connection under way, and no one's yet; null when connect fails.
  method OpenProto(g: Globals) returns (p: ProtoStream?)
    requires g.Split()
    modifies g`sockets, g`protos, g`rest, g`restProtos
    ensures g.Split() && (p == null ==> g.rest == old(g.rest) && g.restProtos == old(g.restProtos))
    ensures p != null ==> fresh(p) && fresh(p.stream) && p.Inv() && p.refs == 1 && !p.created && p.chunkBuf == null
    ensures p != null ==> p.waitp == null && p.headerOff == 0 && !p.stream.connected && p.stream.writep == p
    ensures p != null ==> p.stream.files !in old(g.sockets)
    ensures p != null ==> g.rest == old(g.rest)[p.stream.files := p.stream] && g.restProtos == old(g.restProtos) + {p}
  {
    FreeDescriptor(g.sockets);
    var fd: nat :| fd !in g.sockets;
    var incoming: seq<byte> := *;
    p := new ProtoStream(fd, incoming);
    g.protos := g.protos + {p};
    g.restProtos := g.restProtos + {p};
    var error := p.stream.Connect(g);
    p.stream.writep := p;
    if error != 0 {
      p.Rel(g);
      assert g.rest == old(g.rest) && g.restProtos == old(g.restProtos);
      p := null;
    }
  }

  // What came of a request: the address was not asked for, or connect failed, or it did not.
  datatype Answer = NotAsked | Unreachable | Connecting

  // The new request for a redirected address.
  method RedirectUrlNotify(g: Globals, url: Text, refer: Text) returns (p: ProtoStream?, ghost answer: Answer)
    requires 0 !in url
    requires g.Split()
    modifies g`sockets, g`protos, g`rest, g`restProtos
    ensures g.Split() && (p != null <==> answer.Connecting?) && (IsHttp(url) ==> !answer.NotAsked?)
    ensures p == null ==> g.rest == old(g.rest) && g.restProtos == old(g.restProtos)
    ensures p != null ==> fresh(p) && fresh(p.stream) && p.Inv() && p.refs == 1 && !p.created && p.chunkBuf == null
    ensures p != null ==> p.waitp == null && p.stream.readp == p && p.stream.writep == p
    ensures p != null ==> p.stream.files !in old(g.sockets)
    ensures p != null ==> g.rest == old(g.rest)[p.stream.files := p.stream] && g.restProtos == old(g.restProtos) + {p}
    ensures p != null ==> Asks(p.header, url, Redirected(refer))
  {
    hide Globals.Split, PartsOf, RequestText, IsHttp;
    var parts, ok, read := SplitUrl(url);
    if !ok { return null, NotAsked; }
    p := OpenProto(g);
    if p == null { return null, Unreachable; }
    var request := Compose(parts, Redirected(refer));
    p.SetRequest(request);
    answer := Connecting;
  }

  // Of the response, the plugin has had the head, and the body up to next.
  ghost predicate Streamed(trace: seq<Event>, response: seq<byte>, next: nat, offset: nat)
  {
    && BodyStart(response).Some? && BodyStart(response).value <= next <= |response|
    && PhaseOf(trace).Streaming? && PhaseOf(trace).headers == Head(response)
    && PhaseOf(trace).data == response[BodyStart(response).value..next]
    && offset == next - BodyStart(response).value
  }

  // The plugin was given the head of the response and its stated length, and that is no redirect.
  ghost predicate HeadTold(trace: seq<Event>, response: seq<byte>): (b: bool)
    ensures b ==> Bounded(trace)
  {
    && Bounded(trace)
    && (trace != [] && trace[0].NewStream? ==>
      BodyStart(response).Some? && trace[0].headers == Head(response) && trace[0].end == ContentLength(Head(response))
      && trace[0].mimetype == MimeType(Head(response)) && (trace[0].seekable <==> Seekable(Head(response)))
      && Location(Head(response)).None?)
  }

  // No write is larger than the stream's buffer.
  predicate Bounded(trace: seq<Event>)
  {
    forall i :: 0 <= i < |trace| && trace[i].Write? ==> |trace[i].data| <= 65536
  }

  lemma TellMore(trace: seq<Event>, e: Event, response: seq<byte>)
    requires trace != [] && HeadTold(trace, response) && (e.Write? ==> |e.data| <= CACHE)
    ensures HeadTold(trace + [e], response)
  {
  }

  // The stream is over, and the destructor's calls have reported nothing wrong.
  predicate ReportsDone(trace: seq<Event>)
  {
    var n := |trace|;
    && n > 0 && trace[n - 1].UrlNotify? && trace[n - 1].reason.ResDone?
    && (n > 1 && trace[n - 2].DestroyStream? ==> trace[n - 2].reason.ResDone?)
  }

  // The destructor's calls: what has been delivered stays.
  lemma LastCalls(trace: seq<Event>, url: Text, created: bool, response: seq<byte>)
    requires HeadTold(trace, response)
    requires if created then PhaseOf(trace).Streaming? || PhaseOf(trace).Refused? else trace == [] || PhaseOf(trace).Declined?
    ensures var t := (if created then trace + [DestroyStream(ResDone)] else trace) + [UrlNotify(url, ResDone)];
      && PhaseOf(t) == Notified(if created then Some(PhaseOf(trace).data) else None) && HeadTold(t, response) && Told(t) == trace
      && ReportsDone(t)
  {
    hide Told, BodyStart, Head, ContentLength, MimeType, Seekable, Location;
    ToldBefore(trace, url, created);
    var t := if created then trace + [DestroyStream(ResDone)] else trace;
    PhaseAfter(trace, DestroyStream(ResDone));
    PhaseAfter(t, UrlNotify(url, ResDone));
    LastDone(trace, url, created);
    hide PhaseOf;
    NothingTold();
  }

  lemma NotOver(trace: seq<Event>)
    requires trace != [] && var p := PhaseOf(trace); p.Streaming? || p.Refused? || p.Declined?
    ensures var e := trace[|trace| - 1]; !e.UrlNotify? && !e.DestroyStream?
  {
    assert PhaseOf(trace) == Step(PhaseOf(trace[..|trace| - 1]), trace[|trace| - 1]);
  }

  lemma LastDone(trace: seq<Event>, url: Text, created: bool)
    requires trace != [] ==> var p := PhaseOf(trace); p.Streaming? || p.Refused? || p.Declined?
    ensures ReportsDone((if created then trace + [DestroyStream(ResDone)] else trace) + [UrlNotify(url, ResDone)])
  {
    hide PhaseOf;
    if trace != [] {
      NotOver(trace);
    }
  }

  // What the plugin was told before the destructor's calls.
  function Told(trace: seq<Event>): seq<Event>
  {
    var n := |trace|;
    if n == 0 || !trace[n - 1].UrlNotify? then trace
    else if n > 1 && trace[n - 2].DestroyStream? then trace[..n - 2]
    else trace[..n - 1]
  }

  lemma ToldBefore(trace: seq<Event>, url: Text, created: bool)
    requires trace != [] ==> var p := PhaseOf(trace); p.Streaming? || p.Refused? || p.Declined?
    ensures Told(trace) == trace
    ensures Told((if created then trace + [DestroyStream(ResDone)] else trace) + [UrlNotify(url, ResDone)]) == trace
  {
    hide PhaseOf;
    if trace != [] {
      NotOver(trace);
    }
    var t := if created then trace + [DestroyStream(ResDone)] else trace;
    var u := t + [UrlNotify(url, ResDone)];
    assert u[..|u| - 1] == t;
    assert created ==> u[..|u| - 2] == trace;
  }

  // A callback with nothing more to do leaves its stream waiting: the plugin is not ready, or the socket
  // would block and the plugin has not put an end to it.
  predicate Waits(trace: seq<Event>, created: bool, blocked: bool)
  {
    || (created && trace != [] && trace[|trace| - 1] == WriteReady(0))
    || (blocked && !PhaseOf(trace).Declined? && !PhaseOf(trace).Refused?)
  }

  // newstream is the first call.
  lemma FirstCall(response: seq<byte>, ok: bool)
    requires BodyStart(response).Some? && Location(Head(response)).None?
    ensures var h := Head(response);
      var t := [NewStream(MimeType(h), Seekable(h), h, ContentLength(h), ok)];
      && HeadTold(t, response) && [] + t == t
      && (if ok then Streamed(t, response, BodyStart(response).value, 0) else PhaseOf(t).Declined?)
  {
    hide MimeType, Seekable, ContentLength, Location, BodyStart, Head;
    var h := Head(response);
    PhaseAfter([], NewStream(MimeType(h), Seekable(h), h, ContentLength(h), ok));
  }

  lemma StreamedBegun(trace: seq<Event>, response: seq<byte>, next: nat, offset: nat)
    requires Streamed(trace, response, next, offset)
    ensures trace != []
  {
    NothingTold();
  }

  lemma ReadyStep(trace: seq<Event>, response: seq<byte>, next: nat, offset: nat, room: nat)
    requires Streamed(trace, response, next, offset)
    ensures Streamed(trace + [WriteReady(room)], response, next, offset)
    ensures PhaseOf(trace + [WriteReady(room)]).room == room
  {
    PhaseAfter(trace, WriteReady(room));
  }

  // A write of the next bytes, accepted or not.
  lemma WriteStep(trace: seq<Event>, response: seq<byte>, next: nat, next': nat, offset: nat, data: seq<byte>, taken: int)
    requires Streamed(trace, response, next, offset) && next <= next' <= |response| && data == response[next..next']
    requires 0 < |data| <= PhaseOf(trace).room
    ensures taken == |data| ==> Streamed(trace + [Write(offset, data, taken)], response, next', offset + taken)
    ensures taken != |data| ==> PhaseOf(trace + [Write(offset, data, taken)]).Refused?
    ensures taken != |data| ==> PhaseOf(trace + [Write(offset, data, taken)]).data <= Body(response)
  {
    hide BodyStart, Head, PhaseOf;
    PhaseAfter(trace, Write(offset, data, taken));
    var b := BodyStart(response).value;
    assert response[b..next] + data == response[b..next'];
    assert Body(response)[..next - b] == response[b..next];
  }

  // What has been accepted is a prefix of the body, and all of it once everything was handed on.
  lemma StreamedPrefix(trace: seq<Event>, response: seq<byte>, next: nat, offset: nat)
    requires Streamed(trace, response, next, offset)
    ensures PhaseOf(trace).Streaming? && PhaseOf(trace).data <= Body(response)
    ensures next == |response| ==> PhaseOf(trace).data == Body(response)
  {
    hide BodyStart, Head, PhaseOf;
    var b := BodyStart(response).value;
    assert Body(response)[..next - b] == response[b..next];
  }

  lemma Moved<S, P>(m: map<nat, S>, b: map<nat, S>, f: nat, s: S, ps: set<P>, qs: set<P>, p: P)
    requires f !in b
    ensures m[f := s] + b == m + b[f := s] && ps + {p} + qs == ps + (qs + {p})
  {
  }

  // Registering one thing and removing another.
  lemma Exchange<S, P>(m: map<nat, S>, f: nat, f': nat, s': S, ps: set<P>, p: P, p': P)
    requires f in m && f' !in m && p in ps && p' !in ps
    ensures m[f' := s'] - {f} == m - {f} + map[f' := s']
    ensures ps + {p'} - {p} == ps - {p} + {p'}
  {
    assert f != f' && p != p';
  }

  lemma Unmoved<S, P>(m: map<nat, S>, f: nat, ps: set<P>, p: P)
    requires f in m && p in ps
    ensures m == m - {f} + map[f := m[f]]
    ensures ps == ps - {p} + {p}
  {
  }

  lemma Removed<S, P>(m: map<nat, S>, f: nat, f': nat, s': S, ps: set<P>, p: P, p': P)
    requires f' == f || f' !in m
    requires p' == p || p' !in ps
    ensures (m - {f} + map[f' := s']) - {f'} == m - {f} + map[]
    ensures (ps - {p} + {p'}) - {p'} == ps - {p} + {}
  {
  }

  lemma NothingTold()
    ensures PhaseOf([]) == Fresh
  {
  }

  class NetStream {
    var protop: ProtoStream
    var url: Text
    var created: bool
    var offset: nat

    // What the plugin has been told, whether the last recv met the end of the response, and the
    // response of the last server asked.
    ghost var trace: seq<Event>
    ghost var eof: bool
    ghost var response: seq<byte>
    ghost var deleted: bool
    ghost var Repr: set<object>

    // Exactly one response, alive, waited for by this stream.
    ghost predicate Holds()
      reads this, Repr
    {
      && !deleted && this in Repr && protop in Repr && protop.stream in Repr
      && (protop.chunkBuf != null ==> protop.chunkBuf in Repr)
      && protop.Inv() && protop.refs == 1 && protop.waitp == this
      && protop.stream.readp == protop && protop.stream.writep == protop
      && response == protop.stream.incoming && (created ==> protop.found) && HeadTold(trace, response)
    }

    // What the plugin has accepted is the body as far as it has been handed on.
    ghost predicate Running(): (b: bool)
      reads this, Repr
      ensures b ==> !deleted && this in Repr && protop in Repr && protop.stream in Repr && response == protop.stream.incoming
      ensures b && !created ==> trace == []
    {
      && Holds() && !eof
      && (!created ==> trace == [] && (protop.found ==> protop.Next() == BodyStart(response).value))
      && (created ==> Streamed(trace, response, protop.Next(), offset))
    }

    // About to be deleted.
    ghost predicate Closing()
      reads this, Repr
    {
      && Holds()
      && (!created ==> !eof && (trace == [] || PhaseOf(trace).Declined?))
      && (created ==> PhaseOf(trace).Streaming? || (PhaseOf(trace).Refused? && !eof))
      && (created ==> PhaseOf(trace).data <= Body(response) && (eof ==> PhaseOf(trace).data == Body(response)))
    }

    // Deleted: the plugin has had its last call.
    ghost predicate Ended(): (b: bool)
      reads this
      ensures b ==> deleted
    {
      && deleted && PhaseOf(trace).Notified?
      && (PhaseOf(trace).delivered.Some? ==> PhaseOf(trace).delivered.value <= Body(response))
      && (eof ==> PhaseOf(trace).delivered == Some(Body(response)))
      && trace[|trace| - 1] == UrlNotify(url, ResDone) && ReportsDone(trace) && HeadTold(trace, response)
    }

    // Not among what a callback going on has brought forth.
    ghost predicate Aside(g: Globals)
      reads this, g
    {
      g !in Repr && Repr !! g.nest
    }

    // In order to be called back.
    ghost predicate Ready(g: Globals)
      reads this, Repr, g
    {
      Running() && Aside(g) && g.Registered(protop.stream) && protop in g.restProtos
    }

    // The response p redirects, and this stream's plugin has not been called.
    ghost predicate Redirects(p: ProtoStream)
      reads this, p
    {
      p.Connected() && !created && Location(Head(p.stream.incoming)).Some?
    }

    // Between events: where the head is there and newstream was not called, it is for a redirect.
    ghost predicate Rested()
      reads this, protop
    {
      !created && protop.Connected() ==> Redirects(protop)
    }

    // What became of the stream in an event on the socket of its response p, by which it was called back
    // or not: it has ended exactly if it was, there is no redirect, and nothing is waited for.
    ghost predicate Fate(p: ProtoStream, heard: bool): (b: bool)
      reads this, p, p.stream
      ensures b && deleted ==> heard
    {
      && (deleted <==> heard && !Redirects(p) && !Waits(Told(trace), created, p.Blocked()))
      && (protop != p ==> heard && Redirects(p))
    }

    // A readable event before the head is over: the stream waits only for more of it, or with a buffer just
    // filled; a response that failed ends it, unless an error left by send says that the socket would block;
    // and where the peer sends no empty line at all, that is so exactly if the buffer was full before, or
    // recv met the end or failed.
    twostate predicate HeadOver(p: ProtoStream)
      reads this, p, p.stream
    {
      old(!p.created && !created) ==>
        && (!p.created ==> !deleted && (p.Blocked() || p.stream.pos == 1024) && !old(p.Full()))
        && (p.error ==> (deleted <==> !p.Blocked()))
        && (BodyStart(p.stream.incoming).None? ==>
             (deleted <==> !p.Blocked() && (old(p.Full()) || p.stream.pos < 1024)))
    }

    // The redirect could not be followed, and there is no request left to send that could fail.
    ghost predicate Deaf(): (b: bool)
      reads this, Repr
      ensures b ==> !deleted && trace == []
    {
      Running() && Redirects(protop) && (protop.headerOff == |protop.header| || !protop.stream.watchesWrite)
    }

    // As for a response of status 302 whose address, say ftp://h/, could not be asked for.
    lemma DeafForFound(loc: Text)
      requires Running() && !created && protop.Connected()
      requires response == Ascii(FOUND) + loc + CRLFCRLF && IsAddress(loc)
      ensures Location(Head(response)) == Some(loc)
      ensures Deaf() <==> protop.headerOff == |protop.header| || !protop.stream.watchesWrite
    {
      hide Ascii, First, Location, BodyStart, Head, Streamed, HeadTold;
      FoundRedirects(response, loc, true);
    }

    // Such a stream is not ended: it stays so, or the redirect has been followed after all.
    ghost predicate StaysDeaf(p: ProtoStream)
      reads this, Repr
    {
      !deleted && trace == [] && (protop == p ==> Deaf())
    }

    // A stream nothing of which has changed runs on.
    twostate lemma StillRunning()
      requires old(Running()) && unchanged(this) && forall o :: o in old(Repr) ==> unchanged(o)
      ensures Running()
    {
      hide Running;
      assert this in Repr && Repr == old(Repr);
    }

    twostate lemma StillDeaf()
      requires old(Deaf()) && unchanged(this) && forall o :: o in old(Repr) ==> unchanged(o)
      ensures Deaf()
    {
      hide Running;
      assert old(Running());
      StillRunning();
      assert protop in Repr && protop.stream in Repr;
    }

    // What a callback leaves: the stream ready again, perhaps with another response, or ended; the
    // globals name its present socket and response in place of the former ones.
    twostate predicate Settled(g: Globals)
      reads this, Repr, g, protop, g.nest
    {
      && fresh(Repr - old(Repr)) && Aside(g) && g.locked == old(g.locked) && g.Sound() && fresh(g.nest - old(g.nest))
      && (if deleted then Ended() else Ready(g) && Rested())
      && g.rest == old(g.rest) - {old(protop.stream.files)} + (if deleted then map[] else map[protop.stream.files := protop.stream])
      && g.restProtos == old(g.restProtos) - {old(protop)} + (if deleted then {} else {protop})
      && old(protop.stream.files) !in g.bornSockets
      && (protop == old(protop) || (fresh(protop) && protop !in old(g.restProtos) && protop.stream.files !in old(g.rest)))
    }

    // A descriptor still registered is still that of the same response.
    twostate lemma StillNamed(g: Globals)
      requires old(Ready(g)) && old(g.Split()) && Settled(g)
      ensures var f := old(protop).stream.files;
        f in g.sockets ==> !deleted && protop == old(protop) && g.sockets[f] == protop.stream
    {
      hide Running, Ended, Globals.Nursery;
    }

    constructor (url: Text, protop: ProtoStream)
      requires protop.refs > 0
      modifies protop`refs
      ensures this.protop == protop && this.url == url && !created && trace == [] && !eof && !deleted && offset == 0
      ensures protop.refs == old(protop.refs) + 1 && response == protop.stream.incoming && Repr == {this, protop, protop.stream}
      ensures old(protop.Inv()) ==> protop.Inv()
    {
      this.protop, this.url, created, offset := protop, url, false, 0;
      trace, eof, deleted, response, Repr := [], false, false, protop.stream.incoming, {this, protop, protop.stream};
      new;
      protop.Ref();
    }

    method Startup()
      modifies protop`waitp
      ensures protop.waitp == this && (old(protop.Inv()) ==> protop.Inv())
    {
      protop.RecvWait(this);
    }

    // A call of the plugin, which may ask for other streams before it returns.
    method Call(g: Globals, ghost e: Event)
      requires this in Repr && Aside(g) && g.Sound()
      modifies this`trace, g
      ensures trace == old(trace) + [e] && Aside(g) && g.Sound() && g.Grown()
    {
      hide Globals.Nursery;
      trace := trace + [e];
      g.Requests();
    }

    // The destructor.
    method Delete(g: Globals)
      requires Closing() && Aside(g) && g.Sound() && g.Registered(protop.stream) && protop in g.restProtos
      modifies this`trace, this`deleted, protop`refs, protop`deleted, protop.stream`closed, g
      ensures Ended() && protop.deleted && Told(trace) == old(trace)
      ensures Aside(g) && g.Sound() && g.locked == old(g.locked) && fresh(g.nest - old(g.nest)) && protop.stream.files !in g.bornSockets
      ensures g.rest == old(g.rest) - {protop.stream.files} && g.restProtos == old(g.restProtos) - {protop}
    {
      hide Globals.Nursery, Globals.Split, ProtoStream.Inv, Told, BodyStart, Head, Body, ContentLength, Location, Serving, Collecting;
      hide PhaseOf, HeadTold, Streamed;
      LastWords(g);
      g.SplitIs();
      protop.Rel(g);
      deleted := true;
    }

    // Its calls of the plugin.
    method LastWords(g: Globals)
      requires Closing() && Aside(g) && g.Sound()
      modifies this`trace, g
      ensures Aside(g) && g.Sound() && g.Grown()
      ensures HeadTold(trace, response) && Told(trace) == old(trace) && ReportsDone(trace) && trace[|trace| - 1] == UrlNotify(url, ResDone)
      ensures PhaseOf(trace) == Notified(if created then Some(PhaseOf(old(trace)).data) else None)
    {
      hide Globals.Sound, ProtoStream.Inv, Told, BodyStart, Head, Body, PhaseOf, HeadTold, Streamed;
      LastCalls(trace, url, created, response);
      var reason := ResDone;
      if created {
        reason := protop.GetError();
        Call(g, DestroyStream(reason));
      }
      Call(g, UrlNotify(url, reason));
    }

    // A redirect is followed if its address can be asked for; the former response is given up.
    method FollowRedirect(g: Globals, location: Text) returns (ghost answer: Answer)
      requires Ready(g) && g.Quiet() && !created && protop.Connected() && 0 !in location
      modifies this`protop, this`url, this`response, this`Repr, protop`waitp, protop`refs, protop`deleted, protop.stream`closed
      modifies g`sockets, g`protos, g`rest, g`restProtos
      ensures fresh(Repr - old(Repr)) && Ready(g) && g.Quiet() && (!created ==> trace == [])
      ensures Names(g, old(g.rest), old(g.restProtos), old(protop.stream.files), old(protop))
      ensures (protop != old(protop) <==> answer.Connecting?) && (IsHttp(location) ==> !answer.NotAsked?)
      ensures if protop == old(protop) then url == old(url) && response == old(response)
              else fresh(protop) && Rested() && url == location && trace == [] && Asks(protop.header, location, Redirected(old(url)))
    {
      hide Globals.Split, Running, Asks, PartsOf, IsHttp, Location;
      g.SplitIs();
      Unmoved(g.rest, protop.stream.files, g.restProtos, protop);
      var next;
      next, answer := RedirectUrlNotify(g, location, url);
      if next != null {
        Exchange(old(g.rest), protop.stream.files, next.stream.files, next.stream, old(g.restProtos), protop, next);
        TurnTo(g, next, location);
        assert Ready(g);
      }
    }

    // The response is given up for another.
    method TurnTo(g: Globals, next: ProtoStream, location: Text)
      requires Running() && !created && g !in Repr && g.Split() && g.Registered(protop.stream) && protop in g.restProtos
      requires next != protop && next.stream != protop.stream && next.Inv() && next.refs == 1 && !next.created && next.chunkBuf == null
      requires next.waitp == null && next.stream.readp == next && next.stream.writep == next
      modifies this`protop, this`url, this`response, this`Repr, protop`waitp, protop`refs, protop`deleted, protop.stream`closed, next`waitp
      modifies g`sockets, g`protos, g`rest, g`restProtos
      ensures Running() && Rested() && protop == next && url == location && Repr == old(Repr) + {next, next.stream} && g.Split()
      ensures g.rest == old(g.rest) - {old(protop.stream.files)} && g.restProtos == old(g.restProtos) - {old(protop)}
    {
      hide Globals.Split, ProtoStream.Inv, HeadTold, Streamed;
      url := location;
      protop.RecvWait(null);
      protop.Rel(g);
      assert next.Inv();
      protop := next;
      response := next.stream.incoming;
      Repr := Repr + {next, next.stream};
      Startup();
      assert Begun() by { }
      Begins();
    }

    // A stream that is all new, or that has nothing but a new response.
    ghost predicate Begun()
      reads this, protop, protop.stream, protop.chunkBuf
    {
      && !deleted && !eof && !created && trace == [] && {this, protop, protop.stream} <= Repr && response == protop.stream.incoming
      && protop.Inv() && protop.refs == 1 && !protop.created && protop.chunkBuf == null
      && protop.waitp == this && protop.stream.readp == protop && protop.stream.writep == protop
    }

    lemma Begins()
      requires Begun()
      ensures Running() && Rested()
    {
      hide BodyStart, Head, Streamed;
    }

    // newstream, for the head of the response.
    method OpenStream(g: Globals) returns (ok: bool)
      requires Running() && Aside(g) && g.Sound() && !created && protop.Connected() && Location(Head(response)).None?
      modifies this`created, this`offset, this`trace, g
      ensures Aside(g) && g.Sound() && g.Grown()
      ensures if ok then Running() && created else Closing() && !created
      ensures var h := Head(response);
        trace == [NewStream(MimeType(h), Seekable(h), h, ContentLength(h), ok)]
    {
      hide Globals.Nursery, Globals.Split, MimeType, Seekable, ContentLength, Location, Collecting, Head, BodyStart;
      hide PhaseOf, Streamed, HeadTold;
      var headers := protop.Response();
      offset := 0;
      var end := ParseContentLength(headers);
      var mimetype := ParseMimeType(headers);
      ok := *;
      Call(g, NewStream(mimetype, Seekable(headers), headers, end, ok));
      FirstCall(response, ok);
      if ok {
        created := true;
      }
    }

    // One recv and, if it gave anything, one write: len is what recv returned.
    method Transfer(g: Globals, count: nat) returns (len: int, accepted: bool)
      requires Running() && Aside(g) && g.Sound() && created && 0 < count <= PhaseOf(trace).room && count <= CACHE
      modifies this`offset, this`trace, protop`chunkOff, protop.stream`pos, protop.stream`lastError, g
      ensures Aside(g) && g.Sound() && g.Grown()
      ensures len > 0 && !accepted ==> Closing() && PhaseOf(trace).Refused? && trace != [] && trace[|trace| - 1].Write?
      ensures len <= 0 ==> trace == old(trace)
      ensures protop.error ==> protop.stream.lastError == old(protop.stream.lastError) && protop.stream.pos == old(protop.stream.pos)
      ensures !(len > 0 && !accepted) ==> Running() && protop.Next() >= old(protop.Next()) + (if len > 0 then len else 0)
      ensures -1 <= len && (len == 0 ==> protop.Next() == |response| && protop.stream.lastError == NoError)
      ensures len == -1 ==> protop.error || protop.stream.lastError != NoError
    {
      hide Globals.Nursery, Globals.Split, BodyStart, Head, Body, ContentLength, PhaseOf, Streamed, Serving, Collecting, HeadTold;
      ghost var next := protop.Next();
      var data;
      len, data := protop.RecvData(count);
      accepted := false;
      if len == -1 || len == 0 {
        assert |data| == 0;
        return;
      }
      var taken: int := *;
      WriteStep(trace, response, next, protop.Next(), offset, data, taken);
      StreamedBegun(trace, response, next, offset);
      TellMore(trace, Write(offset, data, taken), response);
      Call(g, Write(offset, data, taken));
      if taken != len { return; }
      offset := offset + taken;
      accepted := true;
    }

    // Hands the body on for as long as the plugin is ready and bytes are there.
    method Pump(g: Globals) returns (r: int)
      requires Running() && Aside(g) && g.Sound() && created
      modifies this`offset, this`trace, this`eof, protop`chunkOff, protop.stream`pos, protop.stream`lastError, g
      ensures Aside(g) && g.Sound() && g.Grown()
      ensures if r == 0 then Running() else r == -1 && Closing()
      ensures created && (r == 0 <==> Waits(trace, created, protop.Blocked()))
      ensures protop.error ==> protop.stream.lastError == old(protop.stream.lastError) && protop.stream.pos == old(protop.stream.pos)
      ensures r == -1 ==> eof || PhaseOf(trace).Refused? || protop.error || protop.stream.lastError == Failed
    {
      hide Globals.Nursery, Globals.Split, ProtoStream.Inv, BodyStart, Head, Body, ContentLength;
      hide PhaseOf, Streamed, Serving, Collecting, HeadTold;
      while true
        invariant Aside(g) && g.Sound() && g.Grown()
        invariant Running() && created && (protop.error ==> protop.stream.lastError == old(protop.stream.lastError) && protop.stream.pos == old(protop.stream.pos))
        decreases |response| - protop.Next()
      {
        var count :| count >= 0;
        ghost var room := count;
        ReadyStep(trace, response, protop.Next(), offset, count);
        StreamedBegun(trace, response, protop.Next(), offset);
        TellMore(trace, WriteReady(count), response);
        Call(g, WriteReady(count));
        if count == 0 { return 0; }
        count := if count < CACHE then count else CACHE;
        var len, accepted := Transfer(g, count);
        if len == -1 || len == 0 {
          assert trace[|trace| - 1] == WriteReady(room);
          StreamedPrefix(trace, response, protop.Next(), offset);
          eof := len == 0;
          break;
        }
        if !accepted { return -1; }
      }
      r := if protop.Blocked() then 0 else -1;
    }

    // What follows unless a redirect does: newstream if it is due, and the body.
    method Deliver(g: Globals) returns (r: int)
      requires Running() && Aside(g) && g.Sound() && (protop.Connected() && !created ==> Location(Head(response)).None?)
      modifies this`created, this`offset, this`trace, this`eof, protop`chunkOff, protop.stream`pos, protop.stream`lastError, g
      ensures Aside(g) && g.Sound() && g.Grown()
      ensures if r == 0 then Running() else r == -1 && Closing()
      ensures r == 0 <==> Waits(trace, created, protop.Blocked())
      ensures (protop.Connected() && r == 0) || old(created) ==> created
      ensures old(!protop.Connected() && !created) ==> trace == [] && (r == 0 <==> protop.Blocked())
      ensures protop.error ==> protop.stream.lastError == old(protop.stream.lastError) && protop.stream.pos == old(protop.stream.pos)
    {
      hide Globals.Nursery, Globals.Split, ProtoStream.Inv, BodyStart, Head, Body, ContentLength, Streamed, Serving, Collecting, HeadTold;
      NothingTold();
      if protop.Connected() && !created {
        var ok := OpenStream(g);
        if !ok { return -1; }
      }
      hide PhaseOf;
      if created {
        r := Pump(g);
        return;
      }
      r := if protop.Blocked() then 0 else -1;
    }

    // Where the response redirects to, if newstream was not called.
    method RedirectedTo() returns (location: Option<Text>)
      requires Running()
      ensures location.Some? <==> Redirects(protop)
      ensures location.Some? ==> location == Location(Head(response)) && 0 !in location.value
    {
      hide BodyStart, Head, PhaseOf, Streamed, Serving, Collecting, HeadTold, Location;
      location := None;
      if protop.Connected() && !created {
        var headers := protop.Response();
        location := ParseRedirectLocation(headers);
      }
    }

    // The notification's work: -1 when the stream is to be deleted.
    method OnRead(g: Globals) returns (r: int)
      requires Ready(g) && g.Quiet()
      modifies this, protop`waitp, protop`refs, protop`deleted, protop`chunkOff
      modifies protop.stream`closed, protop.stream`pos, protop.stream`lastError, g
      ensures fresh(Repr - old(Repr)) && Aside(g) && g.Sound() && g.locked == old(g.locked) && fresh(g.nest - old(g.nest))
      ensures if r == 0 then Ready(g) && Rested() else r == -1 && Closing()
      ensures Redirects(old(protop)) <==> old(Redirects(protop))
      ensures Redirects(old(protop)) ==> r == 0 && trace == [] && (protop == old(protop) ==> url == old(url) && response == old(response))
      ensures old(protop.error) ==> old(protop).stream.lastError == old(protop.stream.lastError) && old(protop).stream.pos == old(protop.stream.pos)
      ensures protop == old(protop) || (fresh(protop) && Redirects(old(protop)))
      ensures !Redirects(old(protop)) ==> (r == 0 <==> Waits(trace, created, protop.Blocked()))
      ensures old(protop.error && !created) ==> (r == 0 <==> protop.Blocked())
      ensures Names(g, old(g.rest), old(g.restProtos), old(protop.stream.files), old(protop)) && old(protop.stream.files) !in g.bornSockets
    {
      hide Globals.Nursery, Globals.Split, Running, Closing, Waits, Head, Location;
      Unmoved(g.rest, protop.stream.files, g.restProtos, protop);
      g.SplitIs();
      g.QuietSound();
      var location := RedirectedTo();
      if location.Some? {
        var _ := FollowRedirect(g, location.value);
        g.QuietSound();
        return 0;
      }
      r := Deliver(g);
      g.SplitIs();
    }

    lemma NothingMore()
      requires Running()
      ensures Told(trace) == trace
    {
      hide BodyStart, Head, Body, HeadTold, PhaseOf, Told;
      ToldBefore(trace, url, created);
    }

    // The globals name this stream's socket and response in place of the former ones.
    ghost predicate Names(g: Globals, sockets: map<nat, SocketStream>, protos: set<ProtoStream>, f: nat, p: ProtoStream)
      reads this, g, protop
    {
      && g.rest == sockets - {f} + map[protop.stream.files := protop.stream]
      && g.restProtos == protos - {p} + {protop}
      && ((protop == p && protop.stream.files == f) || (protop !in protos && protop.stream.files !in sockets))
    }

    method RecvWrapper(g: Globals)
      requires Ready(g) && g.Quiet() && !g.locked
      modifies this, protop`waitp, protop`refs, protop`deleted, protop`chunkOff
      modifies protop.stream`closed, protop.stream`pos, protop.stream`lastError, g
      ensures Settled(g) && Fate(old(protop), true)
      ensures old(protop.error && !created) ==> (deleted <==> !old(protop).Blocked())
      ensures Redirects(old(protop)) <==> old(Redirects(protop))
      ensures Redirects(old(protop)) ==> trace == [] && (protop == old(protop) ==> url == old(url) && response == old(response))
      ensures old(protop.error) ==> old(protop).stream.lastError == old(protop.stream.lastError) && old(protop).stream.pos == old(protop.stream.pos)
    {
      hide Globals.Nursery, Globals.Split, Running, Closing, Ended, Told, Head, Location, Waits;
      g.locked := true;
      var r := OnRead(g);
      if r == -1 {
        Removed(old(g.rest), old(protop.stream.files), protop.stream.files, protop.stream, old(g.restProtos), old(protop), protop);
        Delete(g);
      } else {
        NothingMore();
      }
      g.locked := false;
    }
  }

  // A new stream, its request under way.
  method Launch(g: Globals, url: Text, asking: Asking) returns (stream: NetStream?, ghost answer: Answer)
    requires 0 !in url && g.Split()
    modifies g`sockets, g`protos, g`rest, g`restProtos
    ensures g.Split() && (stream != null <==> answer.Connecting?) && (IsHttp(url) ==> !answer.NotAsked?)
    ensures stream == null ==> g.rest == old(g.rest) && g.restProtos == old(g.restProtos)
    ensures stream != null ==> fresh(stream) && fresh(stream.Repr) && stream.Running() && stream.Rested()
    ensures stream != null ==> stream.url == url && stream.trace == []
    ensures stream != null ==> Asks(stream.protop.header, url, asking)
    ensures stream != null ==> stream.protop.stream.files !in old(g.sockets)
    ensures stream != null ==> g.rest == old(g.rest)[stream.protop.stream.files := stream.protop.stream]
    ensures stream != null ==> g.restProtos == old(g.restProtos) + {stream.protop}
  {
    hide Globals.Split, ProtoStream.Inv, NetStream.Running, NetStream.Rested, PartsOf, RequestText, IsHttp;
    var parts, ok, read := SplitUrl(url);
    if !ok { return null, NotAsked; }
    var protop := OpenProto(g);
    if protop == null { return null, Unreachable; }
    answer := Connecting;
    stream := new NetStream(url, protop);
    var request := Compose(parts, asking);
    protop.SetRequest(request);
    stream.Startup();
    protop.Rel(g);
    assert fresh(stream.Repr);
    stream.Begins();
  }

  // The main loop reports on a descriptor, or a plugin asks for an address.
  datatype Happening = Reported(fd: nat, readable: bool, writable: bool) | Asked(url: Text, body: Option<Text>, window: bool)

  // The program's streams: those alive, and all there have been.
  class Network {
    const g: Globals
    ghost var live: set<NetStream>
    ghost var made: set<NetStream>

    // Every live stream is ready for its next callback and holds the one response that waits for it.
    ghost predicate AllReady()
      reads this, g, live, set n, o | n in live && o in n.Repr :: o
    {
      forall n :: n in live ==> n.Ready(g) && n.Rested() && this !in n.Repr
    }

    // Streams share nothing.
    ghost predicate Apart()
      reads this, made
    {
      && live <= made
      && (forall n, o :: n in live && o in n.Repr && o in made ==> o == n)
      && (forall n, m :: n in live && m in live && n != m ==> n.Repr !! m.Repr)
    }

    // Every other stream has ended, and is not called again.
    ghost predicate OthersEnded()
      reads this, made
    {
      forall n :: n in made && n !in live ==> n.Ended()
    }

    // No response and no registered socket but those of the live streams, and of those just asked for.
    ghost predicate NoneBesides()
      reads this, g, live, set n, o | n in live && o in n.Repr :: o
    {
      && (forall p :: p in g.restProtos ==> exists n :: n in live && n.protop == p)
      && (forall f :: f in g.rest ==> exists n :: n in live && n.protop.stream == g.rest[f] && n.protop.stream.files == f)
    }

    // When a callback is over, there may be streams that were asked for in it.
    ghost predicate Midway()
      reads this, g, g.nest, made, set n, o | n in made && o in n.Repr :: o
    {
      && live <= made && !g.locked && AllReady() && Apart() && OthersEnded() && NoneBesides()
      && g.Sound() && this !in g.nest && forall m :: m in made ==> m !in g.nest
    }

    // Between events these are among the others.
    ghost predicate Valid()
      reads this, g, made, set n, o | n in made && o in n.Repr :: o
    {
      live <= made && !g.locked && AllReady() && Apart() && OthersEnded() && NoneBesides() && g.Quiet()
    }

    constructor ()
      ensures Valid() && fresh(g) && live == {} && made == {}
    {
      g := new Globals();
      live, made := {}, {};
    }

    // The streams asked for take their place among the others.
    ghost method Admit(deaf: map<NetStream, ProtoStream>)
      requires Midway() && Untold(deaf)
      modifies this`live, this`made, g`born, g`nest, g`bornSockets, g`bornProtos, g`rest, g`restProtos
      ensures Valid() && Untold(deaf) && live == old(live) + old(g.born) && made == old(made) + old(g.born)
      ensures forall m :: m in old(g.born) ==> m in old(g.nest) && m.Repr <= old(g.nest)
    {
      hide Midway, AllReady, Apart, OthersEnded, NoneBesides, Globals.Sound, Globals.Quiet, Untold;
      Bystanders();
      live, made := live + g.born, made + g.born;
      g.Quieten();
      AdmitReady();
      AdmitApart();
      AdmitNone();
      StillUntold(deaf);
    }

    lemma Bystanders()
      requires Midway()
      ensures live <= made && !g.locked && this !in g.nest && g !in g.nest
      ensures forall m, o :: m in live && o in m.Repr ==> o != g && o != this
      ensures forall m :: m in g.born ==> m in g.nest && m.Repr <= g.nest
    {
      hide NetStream.Running, NetStream.Ended;
      assert forall m :: m in live ==> m.Ready(g);
    }

    twostate predicate Admitted()
      reads this, g
    {
      && live == old(live) + old(g.born) && made == old(made) + old(g.born) && g.Quiet() && g.locked == old(g.locked)
      && g.rest == old(g.sockets) && g.restProtos == old(g.protos)
    }

    twostate lemma AdmitReady()
      requires old(Midway()) && Admitted()
      requires forall m :: m in old(made) ==> unchanged(m)
      requires forall m, o :: m in old(live) && o in old(m.Repr) ==> unchanged(o)
      requires forall o :: o in old(g.nest) ==> unchanged(o)
      ensures AllReady()
    {
      hide NetStream.Running, NetStream.Ended;
      forall n | n in live
        ensures n.Ready(g) && n.Rested() && this !in n.Repr
      {
        if n in old(live) {
          OldReady(n);
        } else {
          BornReady(n);
        }
      }
    }

    twostate lemma OldReady(n: NetStream)
      requires old(Midway()) && Admitted() && n in old(live)
      requires forall m :: m in old(made) ==> unchanged(m)
      requires forall m, o :: m in old(live) && o in old(m.Repr) ==> unchanged(o)
      requires forall o :: o in old(g.nest) ==> unchanged(o)
      ensures n.Ready(g) && n.Rested() && this !in n.Repr
    {
      hide NetStream.Running, NetStream.Ended, Globals.Nursery;
      assert old(n.Ready(g)) && unchanged(n);
      assert forall o :: o in n.Repr ==> unchanged(o);
      n.StillRunning();
      assert n.protop in n.Repr && n.protop.stream in n.Repr;
    }

    twostate lemma BornReady(n: NetStream)
      requires old(Midway()) && Admitted() && n in old(g.born)
      requires forall m :: m in old(made) ==> unchanged(m)
      requires forall m, o :: m in old(live) && o in old(m.Repr) ==> unchanged(o)
      requires forall o :: o in old(g.nest) ==> unchanged(o)
      ensures n.Ready(g) && n.Rested() && this !in n.Repr
    {
      hide NetStream.Running, NetStream.Ended;
      assert old(n.Running()) && unchanged(n) && n.Repr <= old(g.nest);
      assert forall o :: o in n.Repr ==> unchanged(o);
      n.StillRunning();
      assert n.protop in n.Repr && n.protop.stream in n.Repr;
    }

    twostate lemma AdmitApart()
      requires old(Midway()) && Admitted()
      requires forall m :: m in old(made) ==> unchanged(m)
      requires forall m, o :: m in old(live) && o in old(m.Repr) ==> unchanged(o)
      requires forall o :: o in old(g.nest) ==> unchanged(o)
      ensures Apart() && OthersEnded()
    {
      hide NetStream.Running, NetStream.Ended, NetStream.Rested, Globals.Split, NoneBesides;
      assert forall m :: m in old(live) ==> old(m.Ready(g));
      hide AllReady, NetStream.Ready;
    }

    twostate lemma AdmitNone()
      requires old(Midway()) && Admitted()
      requires forall m :: m in old(made) ==> unchanged(m)
      requires forall m, o :: m in old(live) && o in old(m.Repr) ==> unchanged(o)
      requires forall o :: o in old(g.nest) ==> unchanged(o)
      ensures NoneBesides()
    {
      hide NetStream.Running, NetStream.Ended, NetStream.Ready;
      forall p | p in g.restProtos
        ensures exists m :: m in live && m.protop == p
      {
        if p in old(g.restProtos) {
          var m :| m in old(live) && old(m.protop) == p;
          assert m in live && m.protop == p;
        } else {
          var m :| m in old(g.born) && old(m.protop) == p;
          assert m in live && m.protop == p;
        }
      }
      forall f | f in g.rest
        ensures exists m :: m in live && m.protop.stream == g.rest[f] && m.protop.stream.files == f
      {
        if f in old(g.bornSockets) {
          var m :| m in old(g.born) && old(m.protop.stream) == old(g.bornSockets)[f] && old(m.protop.stream).files == f;
          assert m in live;
        } else {
          var m :| m in old(live) && old(m.protop.stream) == old(g.rest)[f] && old(m.protop.stream).files == f;
          assert m in live;
        }
      }
    }

    // What the events on n may change: that stream and what it holds; and there may be new streams.
    twostate predicate Touched(n: NetStream)
      reads this, n, made, set m, o | m in made && o in m.Repr :: o
    {
      && old(n in live) && old(made) <= made
      && live == (if n.deleted then old(live) - {n} else old(live)) + (made - old(made))
      && (forall m :: m in made - old(made) ==> fresh(m) && fresh(m.Repr))
      && (forall m :: m in old(made) && m != n ==> unchanged(m))
      && (forall m, o :: m in old(live) && m in made && m != n && o in m.Repr ==> unchanged(o))
    }

    // n has been called back, and is left as a callback leaves it.
    twostate predicate Called(n: NetStream)
      reads this, g, g.nest, made, set m, o | m in made && o in m.Repr :: o
      reads n, n.Repr, n.protop
    {
      old(Valid()) && n in made && made == old(made) && Touched(n) && n.Settled(g)
    }

    twostate lemma ReadyKept(n: NetStream)
      requires Called(n)
      ensures AllReady()
    {
      hide NetStream.Running, NetStream.Ended, Globals.Sound;
      assert old(n.Ready(g)) && this !in old(n.Repr);
      forall m | m in live && m != n
        ensures m.Ready(g) && m.Rested() && this !in m.Repr
      {
        OtherReady(n, m);
      }
    }

    twostate lemma OtherReady(n: NetStream, new m: NetStream)
      requires Called(n) && m in old(live) && m != n
      ensures m.Ready(g) && m.Rested() && this !in m.Repr
    {
      hide NetStream.Running, NetStream.Ended, OthersEnded, NoneBesides, Globals.Sound, Globals.Quiet;
      assert old(n.Ready(g)) && old(m.Ready(g)) && old(m.Repr !! n.Repr);
      assert m.protop.stream in old(m.Repr) && m.protop in old(m.Repr);
      assert old(n.protop.stream) in old(n.Repr) && old(n.protop) in old(n.Repr);
      assert unchanged(m) && m.Repr == old(m.Repr) && old(m.Running());
      assert forall o :: o in m.Repr ==> unchanged(o);
      m.StillRunning();
      assert g.Registered(m.protop.stream);
    }

    twostate lemma ProtosKept(n: NetStream)
      requires Called(n)
      ensures forall p :: p in g.restProtos ==> exists m :: m in live && m.protop == p
    {
      hide NetStream.Running, NetStream.Ended, Globals.Sound;
      forall p | p in g.restProtos
        ensures exists m :: m in live && m.protop == p
      {
        if n.deleted || p != n.protop {
          assert p in old(g.restProtos);
          var m :| m in old(live) && old(m.protop) == p;
          assert m in live && m.protop == p;
        } else {
          assert n in live;
        }
      }
    }

    twostate lemma SocketsKept(n: NetStream)
      requires Called(n)
      ensures forall f :: f in g.rest ==> exists m :: m in live && m.protop.stream == g.rest[f] && m.protop.stream.files == f
    {
      hide NetStream.Running, NetStream.Ended, Globals.Sound;
      forall f | f in g.rest
        ensures exists m :: m in live && m.protop.stream == g.rest[f] && m.protop.stream.files == f
      {
        if n.deleted || f != n.protop.stream.files {
          assert f in old(g.rest);
          var m :| m in old(live) && old(m.protop.stream) == old(g.rest)[f] && old(m.protop.stream).files == f;
          assert m in live;
        } else {
          assert n in live;
        }
      }
    }

    twostate lemma ApartKept(n: NetStream)
      requires Called(n)
      ensures Apart() && OthersEnded()
    {
      hide NetStream.Running, NetStream.Ended, NetStream.Ready, NetStream.Rested, AllReady, NoneBesides, Globals.Sound, Globals.Quiet;
      forall m | m in live && m != n
        ensures m.Repr !! n.Repr
      {
        assert old(m.Repr) == m.Repr && old(m.Repr !! n.Repr);
        assert n.Repr <= old(n.Repr) + (n.Repr - old(n.Repr));
      }
    }

    twostate lemma LockKept(n: NetStream)
      requires Called(n)
      ensures live <= made && !g.locked && g.Sound() && fresh(g.nest)
    {
      hide NetStream.Running, NetStream.Ended, AllReady, Apart, OthersEnded, NoneBesides, Globals.Sound;
    }

    twostate lemma Kept(n: NetStream)
      requires Called(n)
      ensures Midway()
    {
      hide NetStream.Running, NetStream.Ended, NetStream.Ready, Globals.Sound, Called, Apart, OthersEnded, AllReady;
      LockKept(n);
      ReadyKept(n);
      ProtosKept(n);
      SocketsKept(n);
      ApartKept(n);
      assert made == old(made) by { CalledMade(n); }
    }

    twostate lemma CalledMade(n: NetStream)
      requires Called(n)
      ensures made == old(made)
    {
    }

    // At every moment of every run, each stream's plugin has been called by the rules, was given the
    // head of the response it got, and has accepted a prefix of that response's body, all of it if recv
    // met the end of the response while the body was being handed on; a stream has had its urlnotify
    // exactly when it is no longer alive.
    lemma StreamsLawful(n: NetStream)
      requires Valid() && n in made
      ensures Lawful(n.trace) && HeadTold(n.trace, n.response) && DataOf(n.trace) <= Body(n.response)
      ensures n.eof ==> n !in live && DataOf(n.trace) == Body(n.response)
      ensures n in live <==> n.trace == [] || !n.trace[|n.trace| - 1].UrlNotify?
      ensures n !in live ==> ReportsDone(n.trace)
      ensures Bounded(n.trace)
    {
      hide BodyStart, Head, Body, ContentLength, PhaseOf, Serving, Collecting, HeadTold;
      PhaseLawful(n.trace);
      if n in live {
        assert n.Ready(g);
        NothingTold();
        if n.created {
          StreamedPrefix(n.trace, n.response, n.protop.Next(), n.offset);
        }
      } else {
        assert n.Ended();
      }
    }

    // A live stream whose plugin has not been called waits for the head of its response, or the head
    // redirects and that was not followed, or the response has failed; and if the socket's last error then
    // is that it would block, part of the request is still to be sent.
    lemma WhyUntold(n: NetStream)
      requires Valid() && n in live && n.trace == []
      ensures !n.created && (!n.protop.created || n.Redirects(n.protop) || n.protop.error)
      ensures n.protop.error && n.protop.Blocked() ==> n.protop.headerOff < |n.protop.header| && n.protop.stream.watchesWrite
    {
      hide BodyStart, Head, Body, ContentLength, PhaseOf, Serving, Collecting, HeadTold, Location;
      assert n.Ready(g) && n.Rested();
      NothingTold();
    }

    // Each live stream holds one response, alive and counted once, that no other stream holds; those
    // are all the responses there are, and the registered sockets are theirs.
    lemma OneResponseEach()
      requires Valid()
      ensures g.protos == set n | n in live :: n.protop
      ensures g.sockets.Keys == set n | n in live :: n.protop.stream.files
      ensures forall n :: n in live ==> !n.protop.deleted && n.protop.refs == 1 && !n.protop.stream.closed
      ensures forall n, m :: n in live && m in live && n != m ==> n.protop != m.protop && n.protop.stream.files != m.protop.stream.files
    {
      hide PhaseOf, HeadTold, Streamed, Serving, Collecting, Body, BodyStart, Head;
      forall n, m | n in live && m in live && n != m
        ensures n.protop != m.protop && n.protop.stream.files != m.protop.stream.files
      {
        assert n.Ready(g) && m.Ready(g);
        assert n.protop.stream in n.Repr && m.protop.stream in m.Repr && n.protop in n.Repr && m.protop in m.Repr;
      }
    }

    // n is the live stream on a registered socket.
    ghost predicate Owns(n: NetStream, fd: nat)
      reads this, g, n, n.protop
    {
      n in live && fd in g.sockets && n.protop.stream == g.sockets[fd]
    }

    lemma Owner(fd: nat) returns (n: NetStream)
      requires Valid() && fd in g.sockets
      ensures Owns(n, fd)
    {
      hide NetStream.Running, NetStream.Ended;
      n :| n in live && n.protop.stream == g.rest[fd];
    }

    lemma Owned(n: NetStream, fd: nat)
      requires Valid() && Owns(n, fd)
      ensures n in made && n in n.Repr && this !in n.Repr && n.Ready(g) && n.Rested() && n.protop.stream.files == fd && g.Quiet()
      ensures forall m :: m in made && m != n ==> m !in n.Repr
      ensures forall m, o :: m in live && m != n && o in m.Repr ==> o !in n.Repr && o != g && o != this
    {
      hide NetStream.Running, NetStream.Ended;
      assert n.Ready(g);
    }

    // The streams of deaf, whose redirects could not be followed: each of them that still has the response
    // given there is alive, and nothing has been said to its plugin.
    ghost predicate Untold(deaf: map<NetStream, ProtoStream>)
      reads this, deaf.Keys, set m, o | m in deaf && o in m.Repr :: o
    {
      forall m :: m in deaf ==> m in made && (m.protop == deaf[m] ==> m in live && m.Deaf())
    }

    twostate lemma UntoldKept(new n: NetStream, deaf: map<NetStream, ProtoStream>)
      requires n in old(made) && Called(n) && old(Untold(deaf))
      requires old(n.Deaf()) ==> n.StaysDeaf(old(n.protop))
      ensures Untold(deaf)
    {
      hide NetStream.Running, NetStream.Ended, NetStream.Deaf, NetStream.Ready, Globals.Sound;
      forall m | m in deaf && m.protop == deaf[m]
        ensures m in live && m.Deaf()
      {
        if m != n {
          assert m in made && unchanged(m) && m.Repr == old(m.Repr);
          assert forall o :: o in m.Repr ==> unchanged(o);
          m.StillDeaf();
        }
      }
    }

    twostate lemma StillUntold(deaf: map<NetStream, ProtoStream>)
      requires old(Untold(deaf)) && old(live) <= live && old(made) <= made && forall m :: m in old(made) ==> unchanged(m)
      requires forall m, o :: m in old(live) && o in old(m.Repr) ==> unchanged(o)
      ensures Untold(deaf)
    {
      hide NetStream.Running, NetStream.Ended, NetStream.Deaf, NetStream.Ready;
      forall m | m in deaf && m.protop == deaf[m]
        ensures m in live && m.Deaf()
      {
        assert m in old(made) && unchanged(m);
        m.StillDeaf();
      }
    }

    // What holds after a callback on n.
    twostate lemma CalledBack(new n: NetStream, deaf: map<NetStream, ProtoStream>)
      requires n in old(made) && Called(n) && old(Untold(deaf))
      requires old(n.Deaf()) ==> n.StaysDeaf(old(n.protop))
      ensures Midway() && Untold(deaf) && fresh(n.Repr - old(n.Repr)) && fresh(g.nest)
    {
      hide Midway, AllReady, Apart, OthersEnded, NoneBesides, NetStream.Ready, NetStream.Running, NetStream.Ended;
      hide NetStream.Deaf, Untold, Touched, Globals.Sound;
      Kept(n);
      LockKept(n);
      assert fresh(n.Repr - old(n.Repr));
      UntoldKept(n, deaf);
    }

    // The stream on a descriptor has had an event; all others are as they were.
    twostate predicate Served(fd: nat, n: NetStream)
      reads this, n, made, set m, o | m in made && o in m.Repr :: o
    {
      old(Owns(n, fd)) && n in made && Touched(n) && fresh(n.Repr - old(n.Repr))
    }

    method OnReadable(fd: nat, ghost n: NetStream, ghost deaf: map<NetStream, ProtoStream>) returns (ghost heard: bool)
      requires Valid() && Untold(deaf) && Owns(n, fd)
      modifies this`live, this`made, g, n.Repr
      ensures Valid() && Untold(deaf) && Served(fd, n) && n.Fate(old(n.protop), heard) && (heard <==> old(n.protop).created)
      ensures old(n.protop.stream).watchesWrite == old(n.protop.stream.watchesWrite) && n.HeadOver(old(n.protop))
      ensures fd in g.sockets ==> !n.deleted && n.protop == old(n.protop) && g.sockets[fd] == old(g.sockets[fd])
    {
      hide Valid, Midway, AllReady, Apart, OthersEnded, NoneBesides, NetStream.Ready, NetStream.Running, NetStream.Ended, NetStream.Settled;
      hide NetStream.Deaf, NetStream.StaysDeaf, NetStream.Fate, Untold, Globals.Quiet;
      Unlocked();
      Owned(n, fd);
      heard := g.sockets[fd].OnRead(g, n);
      live := if n.deleted then live - {n} else live;
      assert forall m :: m in made && m != n ==> unchanged(m);
      assert forall m, o :: m in old(live) && m in made && m != n && o in m.Repr ==> unchanged(o);
      assert Called(n) by { assert Touched(n); }
      CalledBack(n, deaf);
      n.StillNamed(g);
      hide Touched;
      Admit(deaf);
      assert forall m :: m in made - old(made) ==> fresh(m) && fresh(m.Repr);
      assert Touched(n);
    }

    method OnWritable(fd: nat, ghost n: NetStream, ghost deaf: map<NetStream, ProtoStream>) returns (ghost heard: bool)
      requires Valid() && Untold(deaf) && Owns(n, fd) && g.sockets[fd].watchesWrite
      modifies this`live, this`made, g, n.Repr
      ensures Valid() && Untold(deaf) && Served(fd, n) && n.Fate(old(n.protop), heard)
      ensures heard ==> old(n.protop).created && old(n.protop).error && old(n.protop).stream.lastError == Failed
    {
      hide Valid, Midway, AllReady, Apart, OthersEnded, NoneBesides, NetStream.Ready, NetStream.Running, NetStream.Ended, NetStream.Settled;
      hide NetStream.Deaf, NetStream.StaysDeaf, NetStream.Fate, Untold, Globals.Quiet;
      Unlocked();
      Owned(n, fd);
      heard := g.sockets[fd].OnWrite(g, n);
      live := if n.deleted then live - {n} else live;
      assert forall m :: m in made && m != n ==> unchanged(m);
      assert forall m, o :: m in old(live) && m in made && m != n && o in m.Repr ==> unchanged(o);
      assert Called(n) by { assert Touched(n); }
      CalledBack(n, deaf);
      Admit(deaf);
    }

    lemma Unlocked()
      requires Valid()
      ensures !g.locked && live <= made && g.Quiet()
      ensures forall m, o :: m in live && o in m.Repr ==> o != g && o != this
    {
    }

    // The main loop's report about a descriptor; it reports only what is watched.  n is the stream on it, if
    // it has one, and read and wrote tell whether that was called back for the one and for the other.
    method NetworkNotify(fd: nat, readable: bool, writable: bool, ghost deaf: map<NetStream, ProtoStream>)
      returns (ghost n: NetStream?, ghost read: bool, ghost wrote: bool)
      requires Valid() && Untold(deaf) && (writable && fd in g.sockets ==> g.sockets[fd].watchesWrite)
      modifies this`live, this`made, g, set m, o | m in live && o in m.Repr :: o
      ensures Valid() && Untold(deaf) && old(made) <= made
      ensures n != null <==> old(fd in g.sockets) && (readable || writable)
      ensures n == null ==> live == old(live) && made == old(made) && forall m :: m in made ==> unchanged(m)
      ensures n != null ==> n in old(made) && Served(fd, n)
      ensures (read ==> readable) && (wrote ==> writable)
      ensures n != null && readable && !writable ==> n.HeadOver(old(n.protop))
      ensures n != null && (wrote || !writable || n.deleted) ==> n.Fate(old(n.protop), read || wrote)
    {
      hide Valid, AllReady, Apart, OthersEnded, NoneBesides, NetStream.Ready, NetStream.Running, NetStream.Ended, NetStream.Settled;
      hide NetStream.Deaf, NetStream.Fate, Untold, Globals.Quiet;
      n, read, wrote := null, false, false;
      Unlocked();
      if fd in g.sockets && (readable || writable) {
        n := Owner(fd);
        if readable {
          read := OnReadable(fd, n, deaf);
        }
        if writable && fd in g.sockets {
          wrote := OnWritable(fd, n, deaf);
        }
      }
    }

    // A request out of any callback.
    method Request(url: Text, body: Option<Text>, window: bool, ghost deaf: map<NetStream, ProtoStream>)
      returns (ok: bool, stream: NetStream?, ghost answer: Answer)
      requires Valid() && Untold(deaf) && 0 !in url
      modifies this`live, this`made, g
      ensures Valid() && Untold(deaf) && (ok <==> window || stream != null)
      ensures (stream != null <==> answer.Connecting?) && (window ==> answer.NotAsked?) && (IsHttp(url) && !window ==> !answer.NotAsked?)
      ensures stream == null ==> live == old(live) && made == old(made)
      ensures stream != null ==> live == old(live) + {stream} && made == old(made) + {stream} && fresh(stream) && fresh(stream.Repr)
      ensures stream != null ==> stream.url == url && stream.trace == []
      ensures stream != null ==> Asks(stream.protop.header, url, if body.Some? then Post(body.value) else Get)
    {
      hide Valid, Midway, AllReady, Apart, OthersEnded, NoneBesides, Untold, Asks, IsHttp;
      hide NetStream.Ready, NetStream.Running, NetStream.Ended;
      Unlocked();
      g.QuietSound();
      ok, stream, answer := g.Ask(url, body, window);
      StillMidway();
      StillUntold(deaf);
      Admit(deaf);
    }

    // Requests change nothing but the globals.
    twostate lemma StillMidway()
      requires old(Valid()) && unchanged(this) && g.Sound() && g.Grown()
      requires forall m :: m in made ==> unchanged(m)
      requires forall m, o :: m in live && o in m.Repr ==> unchanged(o)
      ensures Midway()
    {
      hide NetStream.Running, NetStream.Ended, Globals.Sound;
      forall n | n in live
        ensures n.Ready(g) && n.Rested() && this !in n.Repr
      {
        assert old(n.Ready(g)) && unchanged(n);
        assert forall o :: o in n.Repr ==> unchanged(o);
        n.StillRunning();
        assert n.protop in n.Repr && n.protop.stream in n.Repr;
      }
    }

    // Any run of the program: whatever happens, in whatever order, what holds of every stream is kept, and a
    // stream whose redirect is never followed is never told anything.
    method Run(happenings: seq<Happening>, ghost deaf: map<NetStream, ProtoStream>)
      requires Valid() && Untold(deaf) && forall h :: h in happenings && h.Asked? ==> 0 !in h.url
      modifies this`live, this`made, g, set m, o | m in live && o in m.Repr :: o
      ensures Valid() && Untold(deaf) && old(made) <= made
    {
      hide Valid, Untold, AllReady, Apart, OthersEnded, NoneBesides, NetStream.Ready, NetStream.Running, NetStream.Ended, NetStream.Settled;
      hide NetStream.Deaf, NetStream.Fate, Asks;
      for i := 0 to |happenings|
        invariant Valid() && Untold(deaf) && old(made) <= made
        invariant forall m, o :: m in live && o in m.Repr ==> fresh(o) || o in old(set m, o | m in live && o in m.Repr :: o)
      {
        Unlocked();
        match happenings[i]
        case Reported(fd, readable, writable) =>
          var watched := fd in g.sockets && g.sockets[fd].watchesWrite;
          var _, _, _ := NetworkNotify(fd, readable, writable && watched, deaf);
        case Asked(url, body, window) =>
          var _, _, _ := Request(url, body, window, deaf);
      }
    }
  }
}
