// A response of status 302 that holds nothing but the address it redirects to.
module FoundResponse {
  import opened Basics
  import opened HttpText

  // All that precedes the address.
  const FOUND := "HTTP/1.0 302 Found\r\nLocation: "

  predicate IsAddress(loc: Text) { forall k :: 0 <= k < |loc| ==> InWord(loc[k]) && loc[k] != 0 }

  // Where its line ends, its blanks and its letters L stand, and that it has no C.
  lemma LineMarks(f: Text, k: nat)
    requires f == Ascii(FOUND) && k < 30
    ensures |f| == 30 && f[k] != 0 && f[k] != 67
    ensures (f[k] == 13 <==> k == 18) && (f[k] == 32 <==> k in {8, 12, 29}) && (f[k] == 76 <==> k == 20)
  {
    hide Ascii;
    assert |FOUND| == 30;
    assert f[k] == FOUND[k] as int % 0x100;
    assert FOUND[k] as int < 0x80;
  }

  lemma FirstIs(s: Text, needle: Text, i: nat)
    requires IsAt(s, needle, i) && |needle| > 0 && forall j :: 0 <= j < i ==> !IsAt(s, needle, j)
    ensures First(s, needle) == Some(i)
  {
  }

  lemma Differs(s: Text, needle: Text, i: nat, k: nat)
    requires k < |needle| && (i + k < |s| ==> s[i + k] != needle[k])
    ensures !IsAt(s, needle, i)
  {
    if i + |needle| <= |s| {
      assert s[i..i + |needle|][k] == s[i + k];
    }
  }

  // The empty line is the one behind the address.
  lemma EmptyLine(f: Text, loc: Text)
    requires f == Ascii(FOUND) && IsAddress(loc)
    ensures First(f + loc + CRLFCRLF, CRLFCRLF) == Some(30 + |loc|) && 0 !in f + loc + CRLFCRLF
  {
    hide Ascii, First;
    forall k: nat | k < 30
      ensures |f| == 30 && f[k] != 0 && (f[k] == 13 <==> k == 18)
    {
      LineMarks(f, k);
    }
    LineMarks(f, 20);
    var r := f + loc + CRLFCRLF;
    assert r[30 + |loc|..] == CRLFCRLF;
    forall j | 0 <= j < 30 + |loc|
      ensures !IsAt(r, CRLFCRLF, j)
    {
      assert r[j] == if j < 30 then f[j] else loc[j - 30];
      assert r[20] == f[20];
      Differs(r, CRLFCRLF, j, if r[j] == 13 then 2 else 0);
    }
    FirstIs(r, CRLFCRLF, 30 + |loc|);
  }

  // No length is stated.
  lemma NoLength(f: Text, loc: Text)
    requires f == Ascii(FOUND) && IsAddress(loc)
    ensures ContentLength(f + loc + CRLFCRLF) == 0
  {
    hide Ascii, First, Value;
    var r, needle := f + loc + CRLFCRLF, Ascii(CONTENT_LENGTH);
    assert needle[0] == 67 && needle[15] == 32;
    forall k: nat | k < 30
      ensures |f| == 30 && f[k] != 67 && (f[k] == 32 ==> k <= 29)
    {
      LineMarks(f, k);
    }
    forall i | 0 <= i <= |r|
      ensures !IsAt(r, needle, i)
    {
      assert i < |r| ==> r[i] == if i < 30 then f[i] else if i < 30 + |loc| then loc[i - 30] else CRLFCRLF[i - 30 - |loc|];
      var k := if i < |r| && r[i] == 67 then 15 else 0;
      assert i + k < |r| && k == 15 ==> r[i + k] == if i + k < 30 + |loc| then loc[i + k - 30] else CRLFCRLF[i + k - 30 - |loc|];
      Differs(r, needle, i, k);
    }
    assert First(r, needle).None?;
  }

  // The head redirects to the address.
  lemma Redirect(f: Text, loc: Text)
    requires f == Ascii(FOUND) && IsAddress(loc)
    ensures Location(f + loc + [13, 10]) == Some(loc)
  {
    hide First, RunEnd;
    var h := f + loc + [13, 10];
    StatusLine(f);
    LocationLine(f);
    assert h[..7] == f[..7] && h[8..11] == f[8..11] && h[20..30] == f[20..30];
    hide Ascii;
    var needle := Ascii(LOCATION);
    forall j | 0 <= j < 20
      ensures !IsAt(h, needle, j)
    {
      LineMarks(f, j);
      assert h[j] == f[j];
      Differs(h, needle, j, 0);
    }
    FirstIs(h, needle, 20);
    assert h[30] == if loc == [] then 13 else loc[0];
    RunTo(h, IsBlank, 30, 30);
    assert forall k :: 30 <= k < 30 + |loc| ==> h[k] == loc[k - 30];
    assert h[30 + |loc|] == 13;
    RunTo(h, InWord, 30, 30 + |loc|);
    assert h[30..30 + |loc|] == loc;
  }

  lemma StatusLine(f: Text)
    requires f == Ascii(FOUND)
    ensures |f| == 30 && f[..7] == Ascii("HTTP/1.") && f[8..11] == Ascii(" 30") && f[7] == 48 && f[11] == 50
  {
    assert |FOUND| == 30;
    var version, code := Ascii("HTTP/1."), Ascii(" 30");
    assert forall k :: 0 <= k < 7 ==> f[k] == version[k];
    assert f[8] == code[0] && f[9] == code[1] && f[10] == code[2];
  }

  lemma LocationLine(f: Text)
    requires f == Ascii(FOUND)
    ensures |f| == 30 && f[20..] == Ascii(LOCATION) && Ascii(LOCATION)[0] == 76
  {
    assert |FOUND| == 30;
    forall k: nat | k < 10
      ensures f[20 + k] == Ascii(LOCATION)[k]
    {
      assert FOUND[20 + k] == LOCATION[k];
    }
    assert forall k :: 0 <= k < 10 ==> f[20..][k] == f[20 + k];
  }
}
