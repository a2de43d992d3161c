// What the stream code reads out of a response's header text.  A C string is the sequence of its
// bytes before the terminating zero.
module HttpText {
  import opened Basics

  type Text = seq<byte>

  // The bytes of a string literal.
  function Ascii(s: string): (t: Text)
    ensures |t| == |s| && forall i :: 0 <= i < |s| ==> t[i] == s[i] as int % 0x100
  {
    seq(|s|, i requires 0 <= i < |s| => s[i] as int % 0x100)
  }

  predicate IsAt(s: Text, needle: Text, i: nat)
  {
    i + |needle| <= |s| && s[i..i + |needle|] == needle
  }

  // First place where needle occurs.
  function FirstFrom(s: Text, needle: Text, i: nat): (r: Option<nat>)
    requires i <= |s|
    ensures r.Some? ==> i <= r.value && IsAt(s, needle, r.value)
    ensures forall j :: i <= j < (if r.Some? then r.value else |s|) ==> !IsAt(s, needle, j)
    decreases |s| - i
  {
    if IsAt(s, needle, i) then Some(i) else if i == |s| then None else FirstFrom(s, needle, i + 1)
  }

  function First(s: Text, needle: Text): (r: Option<nat>)
    ensures r.Some? ==> IsAt(s, needle, r.value)
    ensures forall j :: 0 <= j < (if r.Some? then r.value else |s|) ==> !IsAt(s, needle, j)
  {
    FirstFrom(s, needle, 0)
  }

  // The bytes of a buffer before its first zero.
  function CString(s: seq<byte>): (t: Text)
    ensures |t| <= |s| && t == s[..|t|] && 0 !in t && (|t| < |s| ==> s[|t|] == 0)
  {
    if s == [] || s[0] == 0 then [] else [s[0]] + CString(s[1..])
  }

  lemma {:induction false} CStringIs(s: seq<byte>, n: nat)
    requires n < |s| && s[n] == 0 && 0 !in s[..n]
    ensures CString(s) == s[..n]
    decreases n
  {
    if n > 0 {
      assert s[..n][0] == s[0] && s[1..][..n - 1] == s[..n][1..];
      CStringIs(s[1..], n - 1);
    }
  }

  lemma {:induction false} CStringShort(s: seq<byte>)
    requires 0 in s
    ensures |CString(s)| < |s| && s[|CString(s)|] == 0
  {
    if s[0] != 0 {
      assert s == [s[0]] + s[1..];
      CStringShort(s[1..]);
    }
  }

  const CRLFCRLF: Text := [13, 10, 13, 10]

  // What strstr finds in a text, it finds in every extension of it, even past a zero.
  lemma FirstExtends(s: Text, more: Text, needle: Text)
    requires First(s, needle).Some? && |needle| > 0
    ensures First(s + more, needle) == First(s, needle)
  {
    var i := First(s, needle).value;
    assert (s + more)[i..i + |needle|] == s[i..i + |needle|];
    var r := First(s + more, needle);
    assert IsAt(s + more, needle, i);
    var j := r.value;
    assert (s + more)[j..j + |needle|] == s[j..j + |needle|];
    assert IsAt(s, needle, j);
  }

  // End of the run of bytes satisfying p that starts at i.
  function RunEnd(s: Text, p: byte -> bool, i: nat): (r: nat)
    requires i <= |s|
    ensures i <= r <= |s| && (forall j :: i <= j < r ==> p(s[j])) && (r < |s| ==> !p(s[r]))
    decreases |s| - i
  {
    if i < |s| && p(s[i]) then RunEnd(s, p, i + 1) else i
  }

  lemma {:induction false} RunTo(s: Text, p: byte -> bool, i: nat, r: nat)
    requires i <= r <= |s| && (forall j :: i <= j < r ==> p(s[j])) && (r < |s| ==> !p(s[r]))
    ensures RunEnd(s, p, i) == r
    decreases r - i
  {
    if i < r {
      RunTo(s, p, i + 1, r);
    }
  }

  lemma NoZeroPart(s: Text, i: nat, j: nat)
    requires 0 !in s && i <= j <= |s|
    ensures 0 !in s[i..j]
  {
    assert forall k :: i <= k < j ==> s[k] in s;
  }

  predicate IsBlank(c: byte) { c == 32 }
  predicate IsDigit(c: byte) { 48 <= c < 58 }
  predicate InWord(c: byte) { c != 32 && c != 13 && c != 10 }

  // Decimal value of a digit string, as atoi gives it for a 32-bit long.
  function Value(ds: Text): nat
  {
    if ds == [] then 0 else Value(ds[..|ds| - 1]) * 10 + (if IsDigit(ds[|ds| - 1]) then ds[|ds| - 1] - 48 else 0)
  }

  function Atoi(ds: Text): nat
  {
    if Value(ds) < 0x7FFF_FFFF then Value(ds) else 0x7FFF_FFFF
  }

  const CONTENT_LENGTH := "Content-Length: "
  const LOCATION := "Location: "
  const CONTENT_TYPE := "Content-Type: "
  const ACCEPT_RANGES := "Accept-Ranges: bytes"

  // At most 511 digits from a position on.
  function Digits(h: Text, from: nat): Text
    requires from <= |h|
  {
    var to := RunEnd(h, IsDigit, from);
    h[from..if to - from < 511 then to else from + 511]
  }

  // The digits behind the first "Content-Length: " and any blanks; 0 when there is none.
  function ContentLength(h: Text): nat
  {
    match First(h, Ascii(CONTENT_LENGTH))
    case None => 0
    case Some(i) =>
      var from := RunEnd(h, IsBlank, i + 16);
      Atoi(Digits(h, from))
  }

  // Status line HTTP/1.0 or HTTP/1.1 with status 301 or 302.
  predicate IsRedirect(h: Text)
  {
    && |h| >= 12 && h[..7] == Ascii("HTTP/1.") && (h[7] == 48 || h[7] == 49)
    && h[8..11] == Ascii(" 30") && (h[11] == 49 || h[11] == 50)
  }

  // The word behind the first "Location: " and any blanks.
  function Location(h: Text): Option<Text>
  {
    if !IsRedirect(h) then None
    else
      match First(h, Ascii(LOCATION))
      case None => None
      case Some(i) =>
        var from := RunEnd(h, IsBlank, i + 10);
        Some(h[from..RunEnd(h, InWord, from)])
  }

  predicate InMime(c: byte) { c == 45 || c == 47 || IsAlnum(c) }

  predicate IsAlnum(c: byte) { 48 <= c < 58 || 65 <= c < 91 || 97 <= c < 123 }

  // What follows the first "Content-Type: " and any blanks, up to 255 letters, digits, dashes and slashes;
  // nothing when there is none.
  function MimeType(h: Text): Text
  {
    match First(h, Ascii(CONTENT_TYPE))
    case None => []
    case Some(i) =>
      var from := RunEnd(h, IsBlank, i + 14);
      var to := RunEnd(h, InMime, from);
      h[from..if to - from < 255 then to else from + 255]
  }

  predicate Seekable(h: Text) { First(h, Ascii(ACCEPT_RANGES)).Some? }

  // *p, with the terminating zero behind the last byte.
  function At(h: Text, i: nat): byte
    requires i <= |h|
  {
    if i < |h| then h[i] else 0
  }

  method SkipBlanks(h: Text, i: nat) returns (parse: nat)
    requires i <= |h| && 0 !in h
    ensures parse == RunEnd(h, IsBlank, i)
  {
    parse := i;
    while At(h, parse) == 32
      invariant i <= parse <= |h| && RunEnd(h, IsBlank, parse) == RunEnd(h, IsBlank, i)
      decreases |h| - parse
    {
      parse := parse + 1;
    }
  }

  // The digits copied into title.
  method CopyDigits(h: Text, from: nat) returns (digits: Text)
    requires from <= |h|
    ensures digits == Digits(h, from)
  {
    var title := new byte[512];
    var count := 0;
    var parse := from;
    while 48 <= At(h, parse) < 58 && count + 1 < 512
      invariant parse == from + count <= |h| && count < 512
      invariant title[..count] == h[from..parse]
      invariant RunEnd(h, IsDigit, parse) == RunEnd(h, IsDigit, from)
      decreases |h| - parse
    {
      title[count] := h[parse];
      count := count + 1;
      parse := parse + 1;
    }
    title[count] := 0;
    digits := title[..count];
  }

  method ParseContentLength(h: Text) returns (length: nat)
    requires 0 !in h
    ensures length == ContentLength(h)
  {
    hide Value, Ascii, First, IsAt, RunEnd;
    length := 0;
    var start := First(h, Ascii(CONTENT_LENGTH));
    if start.Some? {
      AtEnd(h, Ascii(CONTENT_LENGTH), start.value);
      var parse := SkipBlanks(h, start.value + 16);
      var title := CopyDigits(h, parse);
      length := Atoi(title);
    }
  }

  method ParseMimeType(h: Text) returns (mimetype: Text)
    requires 0 !in h
    ensures mimetype == MimeType(h)
  {
    hide Ascii, First, IsAt, RunEnd;
    var start := First(h, Ascii(CONTENT_TYPE));
    if start.None? { return []; }
    AtEnd(h, Ascii(CONTENT_TYPE), start.value);
    var from := SkipBlanks(h, start.value + 14);
    mimetype := CopyMime(h, from);
  }

  // The type copied into title.
  method CopyMime(h: Text, from: nat) returns (r: Text)
    requires from <= |h|
    ensures var to := RunEnd(h, InMime, from);
      r == h[from..if to - from < 255 then to else from + 255]
  {
    var title := new byte[256];
    var idx := 0;
    var parse := from;
    while idx + 1 < 256 && InMime(At(h, parse))
      invariant parse == from + idx <= |h| && idx < 256
      invariant title[..idx] == h[from..parse]
      invariant RunEnd(h, InMime, parse) == RunEnd(h, InMime, from)
      decreases |h| - parse
    {
      title[idx] := h[parse];
      idx := idx + 1;
      parse := parse + 1;
    }
    title[idx] := 0;
    r := title[..idx];
  }

  lemma AtEnd(h: Text, needle: Text, i: nat)
    requires IsAt(h, needle, i)
    ensures i + |needle| <= |h|
  {
  }

  method SkipWord(h: Text, from: nat) returns (parse: nat)
    requires from <= |h| && 0 !in h
    ensures parse == RunEnd(h, InWord, from)
  {
    parse := from;
    while At(h, parse) != 0 && At(h, parse) != 32 && At(h, parse) != 13 && At(h, parse) != 10
      invariant from <= parse <= |h| && RunEnd(h, InWord, parse) == RunEnd(h, InWord, from)
      decreases |h| - parse
    {
      parse := parse + 1;
    }
    assert parse < |h| ==> h[parse] in h;
  }

  // The status line with the two digits rewritten that redirects may differ in.
  method Title(h: Text) returns (r: Text)
    requires 0 !in h
    ensures r == Ascii("HTTP/1.0 302") <==> IsRedirect(h)
  {
    hide Ascii, IsRedirect;
    var title := new byte[13];
    for i := 0 to 12
      invariant forall j :: 0 <= j < i ==> title[j] == At(h, if j < |h| then j else |h|)
    {
      title[i] := if i < |h| then h[i] else 0;
    }
    title[7] := if title[7] != 49 then title[7] else 48;
    title[11] := if title[11] != 49 then title[11] else 50;
    title[12] := 0;
    r := title[..12];
    TitleMatches(h, r);
  }

  method ParseRedirectLocation(h: Text) returns (location: Option<Text>)
    requires 0 !in h
    ensures location == Location(h) && (location.Some? ==> 0 !in location.value)
  {
    hide Value, Ascii, First, IsAt, IsRedirect, RunEnd;
    var title := Title(h);
    var start := First(h, Ascii(LOCATION));
    if title != Ascii("HTTP/1.0 302") || start.None? { return None; }
    AtEnd(h, Ascii(LOCATION), start.value);
    var from := SkipBlanks(h, start.value + 10);
    var parse := SkipWord(h, from);
    location := Some(h[from..parse]);
    assert forall k :: from <= k < parse ==> h[k] in h;
  }

  // The rewritten first twelve bytes spell the one status line exactly for the four accepted ones.
  lemma TitleMatches(h: Text, title: Text)
    requires |title| == 12 && 0 !in h
    requires forall j :: 0 <= j < 12 && j != 7 && j != 11 ==> title[j] == At(h, if j < |h| then j else |h|)
    requires title[7] == (var c := At(h, if 7 < |h| then 7 else |h|); if c != 49 then c else 48)
    requires title[11] == (var c := At(h, if 11 < |h| then 11 else |h|); if c != 49 then c else 50)
    ensures title == Ascii("HTTP/1.0 302") <==> IsRedirect(h)
  {
    var line, a, b := Ascii("HTTP/1.0 302"), Ascii("HTTP/1."), Ascii(" 30");
    assert forall j :: 0 <= j < 7 ==> line[j] == a[j];
    assert line[7] == 48 && line[11] == 50;
    assert line[8] == b[0] && line[9] == b[1] && line[10] == b[2];
    if title == line {
      assert |h| >= 12;
      assert h[..7] == a;
      assert h[8..11] == b;
    }
    if IsRedirect(h) {
      assert forall j :: 0 <= j < 7 ==> title[j] == h[..7][j];
      assert forall j :: 0 <= j < 3 ==> title[8 + j] == h[8..11][j];
      assert title[8] == line[8] && title[9] == line[9] && title[10] == line[10];
      assert title == line;
    }
  }
}
