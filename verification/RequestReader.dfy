// What a server reads out of a request: the line with the method and the path, the fields up to the empty
// line, and what stands behind it.
module RequestReader {
  import opened Basics
  import opened HttpText
  import opened UrlParts

  const CRLF: Text := [13, 10]

  datatype Read = Read(lines: seq<Text>, rest: Text)

  // The lines up to the first empty one.
  function ReadLines(t: Text): Read
    decreases |t|
  {
    match First(t, CRLF)
    case None => Read([], t)
    case Some(i) =>
      if i == 0 then Read([], t[2..])
      else
        var r := ReadLines(t[i + 2..]);
        Read([t[..i]] + r.lines, r.rest)
  }

  // A line's words.
  function FirstWord(line: Text): Text { line[..RunEnd(line, InWord, 0)] }

  function SecondWord(line: Text): Text
  {
    var i := RunEnd(line, InWord, 0);
    if i == |line| then [] else line[i + 1..RunEnd(line, InWord, i + 1)]
  }

  // The value of the first field of a name.
  function Field(lines: seq<Text>, name: Text): Option<Text>
  {
    if lines == [] then None
    else if name <= lines[0] then Some(lines[0][|name|..])
    else Field(lines[1..], name)
  }

  // A line, and then more.
  lemma OneLine(line: Text, more: Text)
    requires line != [] && 13 !in line
    ensures ReadLines(line + CRLF + more) == Read([line] + ReadLines(more).lines, ReadLines(more).rest)
  {
    var t := line + CRLF + more;
    assert IsAt(t, CRLF, |line|);
    forall j | 0 <= j < |line|
      ensures !IsAt(t, CRLF, j)
    {
      assert t[j] == line[j];
      assert j + 2 <= |t| ==> t[j..j + 2][0] == t[j];
    }
    hide IsAt;
    assert t[..|line|] == line && t[|line| + 2..] == more;
  }

  lemma EmptyLine(more: Text)
    ensures ReadLines(CRLF + more) == Read([], more)
  {
    var t := CRLF + more;
    assert t[0..2] == CRLF;
    assert t[2..] == more;
  }

  // The lines of a request.
  function RequestLines(parts: Parts, asking: Asking): seq<Text>
    requires parts.path.Some?
  {
    [Ascii(if asking.Post? then "POST " else "GET ") + (parts.path.value + Ascii(" HTTP/1.0")),
     Ascii("Host: ") + (parts.host + parts.port),
     Ascii("User-Agent: ") + Ascii(AGENT),
     Ascii("Accept: application/xml;q=0.9,*/*,q=0.8")]
    + (if asking.Redirected? then [Ascii("Refer: ") + asking.refer] else [])
    + [Ascii("Connection: close")]
  }

  predicate Plain(s: string)
  {
    |s| > 0 && forall i :: 0 <= i < |s| ==> s[i] as int < 0x100 && s[i] as int != 13
  }

  lemma ReadLine(name: string, text: Text, more: Text)
    requires Plain(name) && 13 !in text
    ensures ReadLines(Line(name, text) + more) == Read([Ascii(name) + text] + ReadLines(more).lines, ReadLines(more).rest)
  {
    hide ReadLines;
    var line := Ascii(name) + text;
    assert forall i :: 0 <= i < |name| ==> line[i] == name[i] as int;
    assert forall i :: |name| <= i < |line| ==> line[i] == text[i - |name|];
    OneLine(line, more);
    assert Line(name, text) + more == line + CRLF + more;
  }

  lemma Grouped(a: Text, b: Text, c: Text, d: Text, e: Text, f: Text, g: Text)
    ensures a + b + c + d + e + f + g == a + (b + (c + (d + (e + (f + g)))))
  {
  }

  lemma PlainNames()
    ensures Plain("GET ") && Plain("POST ") && Plain("Host: ") && Plain("User-Agent: ") && Plain("Refer: ") && Plain("Connection: close")
    ensures Plain("Accept: application/xml;q=0.9,*/*,q=0.8") && Plain(" HTTP/1.0")
  {
  }

  lemma NoReturn(s: string)
    requires Plain(s)
    ensures 13 !in Ascii(s)
  {
  }

  lemma PlainJoined(s: string, t: string)
    requires Plain(s) && Plain(t)
    ensures Plain(s + t)
  {
  }

  lemma BrowserPlain()
    ensures Plain(BROWSER)
  {
  }

  lemma EnginePlain()
    ensures Plain(ENGINE)
  {
  }

  lemma AgentPlain()
    ensures 13 !in Ascii(AGENT)
  {
    BrowserPlain();
    EnginePlain();
    hide Plain;
    PlainJoined(BROWSER, ENGINE);
    NoReturn(AGENT);
  }

  // What stands behind the lines of a request.
  function Behind(asking: Asking): Text { if asking.Post? then asking.body else CRLF }

  // A request is read line by line, and where a body is posted reading goes on in that.
  lemma RequestRead(parts: Parts, asking: Asking)
    requires parts.path.Some? && 13 !in parts.path.value && 13 !in parts.host && 13 !in parts.port
    requires asking.Redirected? ==> 13 !in asking.refer
    ensures ReadLines(RequestText(parts, asking))
      == Read(RequestLines(parts, asking) + ReadLines(Behind(asking)).lines, ReadLines(Behind(asking)).rest)
  {
    hide ReadLines, Ascii, Line;
    PlainNames();
    AgentPlain();
    NoReturn(" HTTP/1.0");
    hide Plain;
    var a := Line(if asking.Post? then "POST " else "GET ", parts.path.value + Ascii(" HTTP/1.0"));
    var b, c, d := Line("Host: ", parts.host + parts.port), Line("User-Agent: ", Ascii(AGENT)), Line("Accept: application/xml;q=0.9,*/*,q=0.8", []);
    var e := if asking.Redirected? then Line("Refer: ", asking.refer) else [];
    var f, g := Line("Connection: close", []), Behind(asking);
    Grouped(a, b, c, d, e, f, g);
    ReadLine("Connection: close", [], g);
    if asking.Redirected? {
      ReadLine("Refer: ", asking.refer, f + g);
    } else {
      assert e + (f + g) == f + g;
    }
    ReadLine("Accept: application/xml;q=0.9,*/*,q=0.8", [], e + (f + g));
    ReadLine("User-Agent: ", Ascii(AGENT), d + (e + (f + g)));
    ReadLine("Host: ", parts.host + parts.port, c + (d + (e + (f + g))));
    ReadLine(if asking.Post? then "POST " else "GET ", parts.path.value + Ascii(" HTTP/1.0"), b + (c + (d + (e + (f + g)))));
    assert RequestText(parts, asking) == a + b + c + d + e + f + g;
    var more := ReadLines(g).lines;
    assert Ascii("Connection: close") + [] == Ascii("Connection: close");
    assert Ascii("Accept: application/xml;q=0.9,*/*,q=0.8") + [] == Ascii("Accept: application/xml;q=0.9,*/*,q=0.8");
    var refer := if asking.Redirected? then [Ascii("Refer: ") + asking.refer] else [];
    assert ReadLines(f + g).lines == [Ascii("Connection: close")] + more;
    assert ReadLines(e + (f + g)).lines == refer + [Ascii("Connection: close")] + more;
  }

  // The two words of a request line.
  lemma TwoWords(name: Text, path: Text, version: Text, line: Text)
    requires |name| > 0 && (forall k :: 0 <= k < |name| ==> InWord(name[k])) && (forall k :: 0 <= k < |path| ==> InWord(path[k]))
    requires version != [] && version[0] == 32 && line == name + [32] + path + version
    ensures FirstWord(line) == name && SecondWord(line) == path
  {
    hide RunEnd;
    var n, m := |name|, |name| + 1 + |path|;
    assert forall k :: 0 <= k < n ==> line[k] == name[k];
    assert line[n] == 32 && line[m] == 32;
    assert forall k :: n < k < m ==> line[k] == path[k - n - 1];
    RunTo(line, InWord, 0, n);
    RunTo(line, InWord, n + 1, m);
    assert line[..n] == name && line[n + 1..m] == path;
  }

  lemma Verbs()
    ensures Ascii("GET ") == [71, 69, 84] + [32] && Ascii("POST ") == [80, 79, 83, 84] + [32] && |Ascii(" HTTP/1.0")| > 0 && Ascii(" HTTP/1.0")[0] == 32
  {
  }

  lemma FieldHere(lines: seq<Text>, name: Text, value: Text)
    requires lines != [] && lines[0] == name + value
    ensures Field(lines, name) == Some(value)
  {
  }

  lemma FieldBehind(lines: seq<Text>, name: Text)
    requires lines != [] && name != [] && lines[0] != [] && lines[0][0] != name[0]
    ensures Field(lines, name) == Field(lines[1..], name)
  {
  }

  // The letters that fields begin with.
  lemma Initials()
    ensures |Ascii("Host: ")| > 0 && Ascii("Host: ")[0] == 72 && |Ascii("User-Agent: ")| > 0 && Ascii("User-Agent: ")[0] == 85
    ensures |Ascii("Refer: ")| > 0 && Ascii("Refer: ")[0] == 82 && |Ascii("Connection: close")| > 0 && Ascii("Connection: close")[0] == 67
    ensures var a := Ascii("Accept: application/xml;q=0.9,*/*,q=0.8"); |a| > 0 && a[0] == 65
  {
  }

  lemma ReferRead(parts: Parts, asking: Asking, more: seq<Text>)
    requires parts.path.Some? && !asking.Post? && (asking.Get? ==> more == [])
    ensures var lines := RequestLines(parts, asking)[1..] + more;
      Field(lines, Ascii("Refer: ")) == if asking.Redirected? then Some(asking.refer) else None
  {
    hide Ascii, Field;
    Initials();
    var lines, name := RequestLines(parts, asking)[1..] + more, Ascii("Refer: ");
    FieldBehind(lines, name);
    FieldBehind(lines[1..], name);
    FieldBehind(lines[1..][1..], name);
    var last := lines[1..][1..][1..];
    if asking.Redirected? {
      FieldHere(last, name, asking.refer);
    } else {
      FieldBehind(last, name);
      NoField(last[1..], name);
    }
  }

  lemma NoField(lines: seq<Text>, name: Text)
    requires lines == []
    ensures Field(lines, name) == None
  {
  }

  // A reader gets the method, the path and the fields that the request was asked for with: GET, or POST for
  // a body; the host with its port; and the page a redirect comes from.
  predicate Says(lines: seq<Text>, parts: Parts, asking: Asking)
    requires parts.path.Some?
  {
    && |lines| >= 5
    && FirstWord(lines[0]) == (if asking.Post? then [80, 79, 83, 84] else [71, 69, 84])
    && SecondWord(lines[0]) == parts.path.value
    && Field(lines[1..], Ascii("Host: ")) == Some(parts.host + parts.port)
    && (!asking.Post? ==> Field(lines[1..], Ascii("Refer: ")) == if asking.Redirected? then Some(asking.refer) else None)
  }

  lemma LinesSay(parts: Parts, asking: Asking, more: seq<Text>)
    requires parts.path.Some? && (forall k :: 0 <= k < |parts.path.value| ==> InWord(parts.path.value[k]))
    requires asking.Get? ==> more == []
    ensures Says(RequestLines(parts, asking) + more, parts, asking)
  {
    hide Ascii, FirstWord, SecondWord, Field;
    var lines := RequestLines(parts, asking) + more;
    var verb: Text := if asking.Post? then [80, 79, 83, 84] else [71, 69, 84];
    Verbs();
    assert lines[0] == verb + [32] + parts.path.value + Ascii(" HTTP/1.0");
    TwoWords(verb, parts.path.value, Ascii(" HTTP/1.0"), lines[0]);
    FieldHere(lines[1..], Ascii("Host: "), parts.host + parts.port);
    if !asking.Post? {
      assert lines[1..] == RequestLines(parts, asking)[1..] + more;
      ReferRead(parts, asking, more);
    }
  }

  // Reading a request back gives that, and behind the lines nothing, or the body, whose own first lines are
  // the last fields.
  lemma ReadBack(parts: Parts, asking: Asking)
    requires parts.path.Some? && (forall k :: 0 <= k < |parts.path.value| ==> InWord(parts.path.value[k]))
    requires 13 !in parts.host && 13 !in parts.port && (asking.Redirected? ==> 13 !in asking.refer)
    ensures var r := ReadLines(RequestText(parts, asking));
      && Says(r.lines, parts, asking)
      && (!asking.Post? ==> r.rest == [])
      && (asking.Post? ==> r.rest == ReadLines(asking.body).rest && r.lines[5..] == ReadLines(asking.body).lines)
  {
    hide ReadLines, Ascii, RequestText, Says, FirstWord, SecondWord, Field;
    RequestRead(parts, asking);
    var more := ReadLines(Behind(asking)).lines;
    assert CRLF + [] == CRLF;
    EmptyLine([]);
    LinesSay(parts, asking, more);
    assert asking.Post? ==> (RequestLines(parts, asking) + more)[5..] == more;
  }
}
