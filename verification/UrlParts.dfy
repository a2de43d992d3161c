// Taking an address apart into fixed buffers, and the request made of the parts.
module UrlParts {
  import opened Basics
  import opened HttpText

  function Http(): Text { Ascii("http://") }

  predicate IsHttp(url: Text) { |url| >= 7 && url[..7] == Http() }

  // A byte of a local array, which may never have been written.
  type Cell = Option<byte>

  // get_schema: the scheme array is written only if the address starts with http://.
  method GetSchema(url: Text, schema: array<Cell>) returns (rest: nat)
    requires schema.Length == 8
    modifies schema
    ensures if IsHttp(url) then rest == 7 && forall k :: 0 <= k < 8 ==> schema[k] == Some(if k < 7 then Http()[k] else 0)
            else rest == 0 && schema[..] == old(schema[..])
  {
    if !IsHttp(url) { return 0; }
    for i := 0 to 8
      invariant forall k :: 0 <= k < i ==> schema[k] == Some(if k < 7 then Http()[k] else 0)
    {
      schema[i] := Some(if i < 7 then Http()[i] else 0);
    }
    return 7;
  }

  // The comparison with http:// gets as far as cell k.
  predicate Reaches(cells: seq<Cell>, k: nat)
    requires k < 7 && |cells| == 8
  {
    forall j :: 0 <= j < k ==> cells[j] == Some(Http()[j])
  }

  // And there reads what was never written, which may be anything.
  predicate ReadsUnwritten(cells: seq<Cell>)
    requires |cells| == 8
  {
    exists k :: 0 <= k < 7 && Reaches(cells, k) && cells[k].None?
  }

  predicate SpellsHttp(cells: seq<Cell>)
    requires |cells| == 8
  {
    forall k :: 0 <= k < 7 ==> cells[k] == Some(Http()[k])
  }

  // strncmp of the array with http://, seven bytes at most.
  method SchemaDiffers(schema: array<Cell>) returns (differs: bool, read: bool)
    requires schema.Length == 8
    ensures read <==> ReadsUnwritten(schema[..])
    ensures !read ==> (differs <==> !SpellsHttp(schema[..]))
  {
    hide Ascii, Http;
    HttpIs();
    for i := 0 to 7
      invariant Reaches(schema[..], if i < 7 then i else 6) && (i == 7 ==> SpellsHttp(schema[..]))
    {
      if schema[i].None? {
        differs := *;
        return differs, true;
      }
      if schema[i] != Some(Http()[i]) { return true, false; }
    }
    return false, false;
  }

  lemma HttpIs()
    ensures |Http()| == 7
  {
  }

  // Whether an address can be asked for: an unwritten cell is read exactly if it does not start with http://.
  method Askable(url: Text) returns (ok: bool, read: bool, rest: nat)
    ensures read <==> !IsHttp(url)
    ensures IsHttp(url) ==> ok
    ensures rest == if IsHttp(url) then 7 else 0
  {
    hide Ascii, Http;
    HttpIs();
    var schema := new Cell[8](_ => None);
    assert schema[..][0].None?;
    rest := GetSchema(url, schema);
    if IsHttp(url) {
      assert SpellsHttp(schema[..]);
    } else {
      assert Reaches(schema[..], 0);
    }
    hide IsHttp;
    var differs;
    differs, read := SchemaDiffers(schema);
    ok := !differs;
  }

  // ftp://h/
  method AskFtp(url: Text) returns (ok: bool, read: bool, rest: nat)
    requires url == Ascii("ftp://h/")
    ensures read
  {
    assert url[..7][0] == url[0] && url[0] != Http()[0];
    ok, read, rest := Askable(url);
  }

  predicate InHost(c: byte) { c != 47 && c != 58 }
  predicate NotSlash(c: byte) { c != 47 }

  const HOST_SIZE := 256
  const PORT_SIZE := 8
  const PATH_SIZE := 512

  // Where the name of the host ends that starts at i, and the port behind it.
  function HostEnd(url: Text, i: nat): (h: nat)
    requires i <= |url|
    ensures i <= h <= |url|
  {
    RunEnd(url, InHost, i)
  }

  function PortEnd(url: Text, h: nat): (p: nat)
    requires h <= |url|
    ensures h <= p <= |url|
  {
    if At(url, h) == 58 then RunEnd(url, NotSlash, h) else h
  }

  function Cut(t: Text, n: nat): Text { if |t| <= n then t else t[..n] }

  // The parts of an address as the buffers hold them; a path that fills its buffer has no end.
  datatype Parts = Parts(host: Text, port: Text, path: Option<Text>)

  function PathOf(url: Text, p: nat): Option<Text>
    requires p <= |url|
  {
    if At(url, p) != 47 then Some([47]) else if |url| - p < PATH_SIZE then Some(url[p..]) else None
  }

  function PartsFrom(url: Text, i: nat): Parts
    requires i <= |url|
  {
    var h := HostEnd(url, i);
    var p := PortEnd(url, h);
    Parts(Cut(url[i..h], HOST_SIZE - 1), Cut(url[h..p], PORT_SIZE - 1), PathOf(url, p))
  }

  function PartsOf(url: Text): Parts { PartsFrom(url, if IsHttp(url) then 7 else 0) }

  lemma StringIn(s: seq<byte>, t: Text)
    requires |t| < |s| && s[..|t|] == t && s[|t|] == 0 && 0 !in t
    ensures CString(s) == t
  {
    CStringIs(s, |t|);
  }

  // A buffer with len places left that holds what it can of t, and leaves room for a zero.
  ghost predicate Held(s: seq<byte>, n: nat, len: nat, t: Text)
  {
    n + len == |s| && len > 0 && s[..n] == Cut(t, |s| - 1)
  }

  // One byte more, if there is room.
  method Keep(c: byte, buf: array<byte>, n0: nat, len0: nat, ghost t: Text) returns (n: nat, len: nat)
    requires Held(buf[..], n0, len0, t)
    modifies buf
    ensures Held(buf[..], n, len, t + [c])
  {
    n, len := n0, len0;
    if len > 1 {
      buf[n] := c;
      n, len := n + 1, len - 1;
    }
  }

  // The zero behind what was copied.
  method Seal(buf: array<byte>, n: nat, len: nat, ghost t: Text)
    requires Held(buf[..], n, len, t) && 0 !in t
    modifies buf
    ensures CString(buf[..]) == Cut(t, buf.Length - 1)
  {
    buf[n] := 0;
    StringIn(buf[..], Cut(t, buf.Length - 1));
  }

  method GetHostname(url: Text, i: nat, hostname: array<byte>) returns (next: nat)
    requires 0 !in url && i <= |url| && hostname.Length > 0
    modifies hostname
    ensures next == HostEnd(url, i) && CString(hostname[..]) == Cut(url[i..next], hostname.Length - 1)
  {
    hide Held, Cut, CString, RunEnd;
    var n: nat, len: nat := 0, hostname.Length;
    next := i;
    NothingHeld(hostname[..], url[i..next]);
    while At(url, next) != 0 && At(url, next) != 47 && At(url, next) != 58
      invariant i <= next <= |url| && RunEnd(url, InHost, next) == RunEnd(url, InHost, i)
      invariant Held(hostname[..], n, len, url[i..next])
      decreases |url| - next
    {
      RunOn(url, InHost, next);
      n, len := Keep(url[next], hostname, n, len, url[i..next]);
      assert url[i..next] + [url[next]] == url[i..next + 1];
      next := next + 1;
    }
    RunStops(url, InHost, next);
    NoZeroPart(url, i, next);
    Seal(hostname, n, len, url[i..next]);
  }

  lemma NothingHeld(s: seq<byte>, t: Text)
    requires s != [] && t == []
    ensures Held(s, 0, |s|, t)
  {
  }

  lemma NothingCut(t: Text, n: nat)
    requires t == []
    ensures Cut(t, n) == []
  {
  }

  lemma RunOn(s: Text, p: byte -> bool, i: nat)
    requires i < |s| && p(s[i])
    ensures RunEnd(s, p, i + 1) == RunEnd(s, p, i)
  {
  }

  lemma RunStops(s: Text, p: byte -> bool, i: nat)
    requires i <= |s| && 0 !in s && (At(s, i) == 0 || !p(At(s, i)))
    ensures RunEnd(s, p, i) == i
  {
    assert i < |s| ==> s[i] in s;
  }

  // strncpy of a text of at most one byte, and zeros behind it.
  method Fill(text: Text, buf: array<byte>)
    requires |text| <= 1 && |text| < buf.Length && 0 !in text
    modifies buf
    ensures CString(buf[..]) == text
  {
    for k := 0 to buf.Length
      invariant forall j :: 0 <= j < k ==> buf[j] == if j < |text| then text[j] else 0
    {
      buf[k] := if k < |text| then text[k] else 0;
    }
    StringIn(buf[..], text);
  }

  method GetPorttext(url: Text, i: nat, porttext: array<byte>) returns (next: nat)
    requires 0 !in url && i <= |url| && porttext.Length > 0
    modifies porttext
    ensures next == PortEnd(url, i) && CString(porttext[..]) == Cut(url[i..next], porttext.Length - 1)
  {
    hide Held, Cut, CString, RunEnd;
    if At(url, i) != 58 {
      Fill([], porttext);
      NothingCut(url[i..i], porttext.Length - 1);
      return i;
    }
    var n: nat, len: nat := 0, porttext.Length;
    next := i;
    NothingHeld(porttext[..], url[i..next]);
    while At(url, next) != 0 && At(url, next) != 47
      invariant i <= next <= |url| && RunEnd(url, NotSlash, next) == RunEnd(url, NotSlash, i)
      invariant Held(porttext[..], n, len, url[i..next])
      decreases |url| - next
    {
      RunOn(url, NotSlash, next);
      n, len := Keep(url[next], porttext, n, len, url[i..next]);
      assert url[i..next] + [url[next]] == url[i..next + 1];
      next := next + 1;
    }
    RunStops(url, NotSlash, next);
    NoZeroPart(url, i, next);
    Seal(porttext, n, len, url[i..next]);
  }

  // Copies the path with its zero; what does not fit is cut off, and the zero with it.
  method GetUrlPath(url: Text, i: nat, path: array<byte>)
    requires 0 !in url && i <= |url| && path.Length > 1
    modifies path
    ensures At(url, i) != 47 ==> CString(path[..]) == [47]
    ensures At(url, i) == 47 && |url| - i < path.Length ==> CString(path[..]) == url[i..] && 0 in path[..]
    ensures At(url, i) == 47 && |url| - i >= path.Length ==> 0 !in path[..]
  {
    if At(url, i) != 47 {
      Fill([47], path);
      return;
    }
    var c, n := path.Length, 0;
    while c > 0
      invariant 0 <= c == path.Length - n && i + n <= |url| && path[..n] == url[i..i + n]
    {
      c := c - 1;
      path[n] := At(url, i + n);
      if i + n == |url| {
        NoZeroPart(url, i, |url|);
        StringIn(path[..], url[i..]);
        return;
      }
      n := n + 1;
    }
    NoZeroPart(url, i, i + n);
  }

  // The four in turn, into buffers of their sizes.
  method SplitUrl(url: Text) returns (parts: Parts, ok: bool, read: bool)
    requires 0 !in url
    ensures parts == PartsOf(url)
    ensures (read <==> !IsHttp(url)) && (IsHttp(url) ==> ok)
  {
    hide Ascii, CString, HostEnd, PortEnd, Cut;
    var rest;
    ok, read, rest := Askable(url);
    var hostname, porttext, path := new byte[HOST_SIZE], new byte[PORT_SIZE], new byte[PATH_SIZE];
    var h := GetHostname(url, rest, hostname);
    var p := GetPorttext(url, h, porttext);
    GetUrlPath(url, p, path);
    parts := Parts(CString(hostname[..]), CString(porttext[..]), if 0 in path[..] then Some(CString(path[..])) else None);
    if At(url, p) != 47 {
      SlashString(path[..]);
    }
  }

  lemma SlashString(s: seq<byte>)
    requires |s| > 1 && CString(s) == [47]
    ensures 0 in s
  {
    assert s[1] == 0;
  }

  // The parts as they were put together.
  predicate HostGood(host: Text) { |host| < 256 && forall c :: c in host ==> c != 0 && InHost(c) }

  predicate PortGood(port: Text)
  {
    port == [] || (port[0] == 58 && |port| < 8 && forall c :: c in port ==> c != 0 && NotSlash(c))
  }

  predicate PathGood(path: Text) { path == [] || (path[0] == 47 && |path| < 512 && 0 !in path) }

  // Where the parts of an address put together from them are.
  lemma Places(host: Text, port: Text, path: Text)
    ensures var url := Http() + host + port + path;
      var h, p := 7 + |host|, 7 + |host| + |port|;
      && |url| == p + |path|
      && url[..7] == Http() && url[7..h] == host && url[h..p] == port && url[p..] == path
      && (forall k :: 7 <= k < h ==> url[k] == host[k - 7]) && (forall k :: h <= k < p ==> url[k] == port[k - h])
      && (p < |url| ==> url[p] == path[0])
  {
    hide Ascii;
  }

  // An address put together from parts that fit is taken apart into them; no path is the path /.
  lemma SplitJoined(host: Text, port: Text, path: Text)
    requires HostGood(host) && PortGood(port) && PathGood(path)
    ensures PartsOf(Http() + host + port + path) == Parts(host, port, Some(if path == [] then [47] else path))
  {
    var url := Http() + host + port + path;
    var h, p := 7 + |host|, 7 + |host| + |port|;
    Places(host, port, path);
    hide Ascii, Http;
    RunTo(url, InHost, 7, h);
    if port != [] {
      RunTo(url, NotSlash, h, p);
    }
  }

  // What the parts hold of an address: all of it exactly if each fits its buffer.
  lemma PartsKeepAll(url: Text)
    requires IsHttp(url)
    ensures var h := HostEnd(url, 7);
      var p := PortEnd(url, h);
      var parts := PartsOf(url);
      (parts.path.Some? && Http() + parts.host + parts.port + parts.path.value == (if p < |url| then url else url + [47]))
      <==> h - 7 < 256 && p - h < 8 && |url| - p < 512
  {
    hide Ascii;
    var h := HostEnd(url, 7);
    var p := PortEnd(url, h);
    assert h < |url| ==> !InHost(url[h]);
    assert p < |url| ==> url[p] == 47;
    assert url == url[..7] + url[7..h] + url[h..p] + url[p..];
  }

  // The request for an address: of a plugin that gets it, posts to it, or is redirected to it from another.
  datatype Asking = Get | Post(body: Text) | Redirected(refer: Text)

  const BROWSER := "Mozilla/5.0 (X11; U; FreeBSD i386; en-US; "
  const ENGINE := "rv:1.9.0.5) Gecko/2008122208 Firefox/3.0.5"
  const AGENT := BROWSER + ENGINE

  function Line(name: string, text: Text): Text
  {
    Ascii(name) + text + [13, 10]
  }

  function RequestText(parts: Parts, asking: Asking): Text
    requires parts.path.Some?
  {
    Line(if asking.Post? then "POST " else "GET ", parts.path.value + Ascii(" HTTP/1.0"))
    + Line("Host: ", parts.host + parts.port)
    + Line("User-Agent: ", Ascii(AGENT))
    + Line("Accept: application/xml;q=0.9,*/*,q=0.8", [])
    + (if asking.Redirected? then Line("Refer: ", asking.refer) else [])
    + Line("Connection: close", [])
    + (if asking.Post? then asking.body else [13, 10])
  }

  // The text of the request; where the path has no end, bytes behind its buffer are in it too.
  method Compose(parts: Parts, asking: Asking) returns (text: Text)
    ensures parts.path.Some? ==> text == RequestText(parts, asking)
  {
    if parts.path.None? {
      text := *;
      return;
    }
    hide Ascii;
    text := Line(if asking.Post? then "POST " else "GET ", parts.path.value + Ascii(" HTTP/1.0"));
    text := text + Line("Host: ", parts.host + parts.port);
    text := text + Line("User-Agent: ", Ascii(AGENT));
    text := text + Line("Accept: application/xml;q=0.9,*/*,q=0.8", []);
    if asking.Redirected? {
      text := text + Line("Refer: ", asking.refer);
    }
    text := text + Line("Connection: close", []);
    text := text + (if asking.Post? then asking.body else [13, 10]);
  }

  // The text is the request for the address, where its path has an end.
  predicate Asks(text: Text, url: Text, asking: Asking)
  {
    PartsOf(url).path.Some? ==> text == RequestText(PartsOf(url), asking)
  }
}
