// Header fields as a server writes them, and what is read of them.
module HeaderFields {
  import opened Basics
  import opened HttpText

  // A number in decimal digits.
  function Decimal(n: nat): (t: Text)
    ensures t != [] && forall k :: 0 <= k < |t| ==> IsDigit(t[k])
  {
    if n < 10 then [48 + n] else Decimal(n / 10) + [48 + n % 10]
  }

  lemma {:induction false} ValueOfDecimal(n: nat)
    ensures Value(Decimal(n)) == n
    decreases n
  {
    var t := Decimal(n);
    if n < 10 {
      assert t[..0] == [];
    } else {
      ValueOfDecimal(n / 10);
      assert t[..|t| - 1] == Decimal(n / 10);
    }
  }

  lemma {:induction false} DecimalShort(n: nat)
    requires n < 0x7FFF_FFFF
    ensures |Decimal(n)| <= 10
  {
    Shorter(n, 10_000_000_000, 10);
  }

  lemma {:induction false} Shorter(n: nat, bound: nat, k: nat)
    requires n < bound && k > 0 && bound <= Power10(k)
    ensures |Decimal(n)| <= k
    decreases n
  {
    if n >= 10 {
      Shorter(n / 10, Power10(k - 1), k - 1);
    }
  }

  function Power10(k: nat): nat { if k == 0 then 1 else 10 * Power10(k - 1) }

  // A text in which a field stands: its name first occurs behind pre, then come blanks, the value, and the
  // rest of the text.
  predicate FieldIn(h: Text, pre: Text, name: Text, blanks: Text, value: Text, rest: Text)
  {
    && h == pre + name + blanks + value + rest && First(h, name) == Some(|pre|)
    && (forall k :: 0 <= k < |blanks| ==> blanks[k] == 32) && (value + rest != [] ==> (value + rest)[0] != 32)
  }

  // The places of blanks, value and rest.
  lemma Places(h: Text, pre: Text, name: Text, blanks: Text, value: Text, rest: Text)
    requires FieldIn(h, pre, name, blanks, value, rest)
    ensures var i := |pre| + |name|;
      var from := i + |blanks|;
      && from + |value| <= |h| && RunEnd(h, IsBlank, i) == from && h[from..from + |value|] == value
      && (forall k :: from <= k < from + |value| ==> h[k] == value[k - from])
      && (from + |value| < |h| ==> rest != [] && h[from + |value|] == rest[0])
      && (from + |value| == |h| ==> rest == [])
  {
    hide First, RunEnd;
    var i := |pre| + |name|;
    var from := i + |blanks|;
    assert forall k :: i <= k < from ==> h[k] == blanks[k - i];
    assert from < |h| ==> h[from] == (value + rest)[0];
    RunTo(h, IsBlank, i, from);
  }

  // A stated length in decimal is read as that number.
  lemma LengthRead(h: Text, pre: Text, blanks: Text, n: nat, rest: Text)
    requires FieldIn(h, pre, Ascii("Content-Length: "), blanks, Decimal(n), rest)
    requires n < 0x7FFF_FFFF && (rest != [] ==> !(48 <= rest[0] <= 57))
    ensures ContentLength(h) == n
  {
    hide First, RunEnd, Value, Decimal, Ascii;
    DecimalShort(n);
    ValueOfDecimal(n);
    Places(h, pre, Ascii(CONTENT_LENGTH), blanks, Decimal(n), rest);
    var from := |pre| + 16 + |blanks|;
    NameLengths();
    RunTo(h, IsDigit, from, from + |Decimal(n)|);
  }

  lemma NameLengths()
    ensures |Ascii(CONTENT_LENGTH)| == 16 && |Ascii(CONTENT_TYPE)| == 14 && |Ascii(LOCATION)| == 10
  {
  }

  // Letters, digits, dashes and slashes.
  predicate TypeByte(c: byte) { 97 <= c <= 122 || 65 <= c <= 90 || 48 <= c <= 57 || c == 45 || c == 47 }

  // A type is read as it stands, cut to 255 bytes.
  lemma TypeRead(h: Text, pre: Text, blanks: Text, mimetype: Text, rest: Text)
    requires FieldIn(h, pre, Ascii("Content-Type: "), blanks, mimetype, rest)
    requires (forall k :: 0 <= k < |mimetype| ==> TypeByte(mimetype[k])) && (rest != [] ==> !TypeByte(rest[0]))
    ensures MimeType(h) == if |mimetype| <= 255 then mimetype else mimetype[..255]
  {
    hide First, RunEnd, Ascii;
    Places(h, pre, Ascii(CONTENT_TYPE), blanks, mimetype, rest);
    var from := |pre| + 14 + |blanks|;
    NameLengths();
    RunTo(h, InMime, from, from + |mimetype|);
    assert |mimetype| > 255 ==> h[from..from + 255] == h[from..from + |mimetype|][..255];
  }

  // So is an address, up to a blank or the end of the line, under the status lines of redirects.
  lemma AddressRead(h: Text, pre: Text, blanks: Text, address: Text, rest: Text)
    requires FieldIn(h, pre, Ascii("Location: "), blanks, address, rest) && IsRedirect(h)
    requires forall k :: 0 <= k < |address| ==> address[k] != 32 && address[k] != 13 && address[k] != 10
    requires rest != [] ==> rest[0] == 32 || rest[0] == 13 || rest[0] == 10
    ensures Location(h) == Some(address)
  {
    hide First, RunEnd, Ascii, IsRedirect;
    Places(h, pre, Ascii(LOCATION), blanks, address, rest);
    var from := |pre| + 10 + |blanks|;
    NameLengths();
    RunTo(h, InWord, from, from + |address|);
  }

  // Those status lines: HTTP/1.0 or HTTP/1.1, with 301 or 302.
  lemma StatusLines(h: Text)
    ensures IsRedirect(h) <==>
      |h| >= 12 && h[..7] == [72, 84, 84, 80, 47, 49, 46] && h[7] in {48, 49} && h[8..11] == [32, 51, 48] && h[11] in {49, 50}
  {
    var version, code := Ascii("HTTP/1."), Ascii(" 30");
    assert version == [72, 84, 84, 80, 47, 49, 46];
    assert code == [32, 51, 48];
    hide Ascii;
  }
}
