/**
 Taking the method name off the front of a request body without parsing the rest,
 and the exact language that succeeds on. Whitespace is that of section 2 of RFC
 8259, string delimiters those of section 7 of RFC 8259, and a name has to be
 well-formed UTF-8 as in section 4 of RFC 3629.
 */
module Scanner {
  import opened Wrappers

  const QUOTE: Byte := 0x22
  const BACKSLASH: Byte := 0x5C
  const BRACE: Byte := 0x7B
  const COLON: Byte := 0x3A

  /** `method`, then the closing quote. */
  const METHOD_KEY: Bytes := [0x6D, 0x65, 0x74, 0x68, 0x6F, 0x64, QUOTE]

  predicate IsSpace(b: Byte) {
    b == 0x20 || b == 0x09 || b == 0x0A || b == 0x0D
  }

  // ---------------------------------------------------------------------
  // Well-formed UTF-8
  // ---------------------------------------------------------------------

  predicate IsTail(b: Byte) {
    0x80 <= b <= 0xBF
  }

  /** Length of the character a well-formed string starts with, or zero. */
  function LeadLength(s: Bytes): (n: nat)
    ensures n <= |s| && n <= 4
  {
    if |s| >= 1 && s[0] <= 0x7F then 1
    else if |s| >= 2 && 0xC2 <= s[0] <= 0xDF && IsTail(s[1]) then 2
    else if |s| >= 3 && IsTail(s[2])
            && ((s[0] == 0xE0 && 0xA0 <= s[1] <= 0xBF)
                || ((0xE1 <= s[0] <= 0xEC || 0xEE <= s[0] <= 0xEF) && IsTail(s[1]))
                || (s[0] == 0xED && 0x80 <= s[1] <= 0x9F)) then 3
    else if |s| >= 4 && IsTail(s[2]) && IsTail(s[3])
            && ((s[0] == 0xF0 && 0x90 <= s[1] <= 0xBF)
                || (0xF1 <= s[0] <= 0xF3 && IsTail(s[1]))
                || (s[0] == 0xF4 && 0x80 <= s[1] <= 0x8F)) then 4
    else 0
  }

  predicate IsUtf8(s: Bytes) {
    s == [] || (LeadLength(s) > 0 && IsUtf8(s[LeadLength(s)..]))
  }

  /** A Unicode scalar value: any code point but the surrogates. */
  predicate IsScalar(c: int) {
    0 <= c < 0xD800 || 0xE000 <= c < 0x11_0000
  }

  function Encode(c: int): (s: Bytes)
    requires IsScalar(c)
    ensures 1 <= |s| <= 4
  {
    if c < 0x80 then [c as Byte]
    else if c < 0x800 then [(0xC0 + c / 64) as Byte, (0x80 + c % 64) as Byte]
    else if c < 0x1_0000 then [(0xE0 + c / 4096) as Byte, (0x80 + c / 64 % 64) as Byte, (0x80 + c % 64) as Byte]
    else [(0xF0 + c / 262144) as Byte, (0x80 + c / 4096 % 64) as Byte, (0x80 + c / 64 % 64) as Byte,
          (0x80 + c % 64) as Byte]
  }

  function EncodeAll(cs: seq<int>): Bytes
    requires forall i :: 0 <= i < |cs| ==> IsScalar(cs[i])
  {
    if cs == [] then [] else Encode(cs[0]) + EncodeAll(cs[1..])
  }

  lemma EncodedLeads(c: int, rest: Bytes)
    requires IsScalar(c)
    ensures LeadLength(Encode(c) + rest) == |Encode(c)|
  {
    var s := Encode(c) + rest;
    assert forall i :: 0 <= i < |Encode(c)| ==> s[i] == Encode(c)[i];
  }

  /** The code point a well-formed character of length `n` stands for. */
  function Decode(s: Bytes): int
    requires LeadLength(s) > 0
  {
    match LeadLength(s)
    case 1 => s[0] as int
    case 2 => (s[0] as int - 0xC0) * 64 + (s[1] as int - 0x80)
    case 3 => (s[0] as int - 0xE0) * 4096 + (s[1] as int - 0x80) * 64 + (s[2] as int - 0x80)
    case _ =>
      (s[0] as int - 0xF0) * 262144 + (s[1] as int - 0x80) * 4096 + (s[2] as int - 0x80) * 64 + (s[3] as int - 0x80)
  }

  /** The low six bits split off again. */
  lemma SixBits(high: int, low: int)
    requires 0 <= low < 64
    ensures (high * 64 + low) / 64 == high && (high * 64 + low) % 64 == low
  {}

  lemma DecodeEncodes2(s: Bytes)
    requires LeadLength(s) == 2
    ensures IsScalar(Decode(s)) && Encode(Decode(s)) == s[..2]
  {
    SixBits(s[0] as int - 0xC0, s[1] as int - 0x80);
  }

  lemma DecodeEncodes3(s: Bytes)
    requires LeadLength(s) == 3
    ensures IsScalar(Decode(s)) && Encode(Decode(s)) == s[..3]
  {
    var a, b, c := s[0] as int - 0xE0, s[1] as int - 0x80, s[2] as int - 0x80;
    var v := Decode(s);
    assert v == (a * 64 + b) * 64 + c;
    SixBits(a * 64 + b, c);
    SixBits(a, b);
    assert 0x800 <= v < 0x1_0000 && IsScalar(v);
    assert v / 4096 == a;
    assert Encode(v) == [s[0], s[1], s[2]];
  }

  lemma DecodeEncodes4(s: Bytes)
    requires LeadLength(s) == 4
    ensures IsScalar(Decode(s)) && Encode(Decode(s)) == s[..4]
  {
    var a, b, c, d := s[0] as int - 0xF0, s[1] as int - 0x80, s[2] as int - 0x80, s[3] as int - 0x80;
    var v := Decode(s);
    assert v == ((a * 64 + b) * 64 + c) * 64 + d;
    SixBits((a * 64 + b) * 64 + c, d);
    SixBits(a * 64 + b, c);
    SixBits(a, b);
    assert 0x1_0000 <= v < 0x11_0000;
    assert v / 4096 == a * 64 + b && v / 262144 == a;
    assert Encode(v) == [s[0], s[1], s[2], s[3]];
  }

  lemma DecodeEncodes(s: Bytes)
    requires LeadLength(s) > 0
    ensures IsScalar(Decode(s)) && Encode(Decode(s)) == s[..LeadLength(s)]
  {
    match LeadLength(s)
    case 1 =>
    case 2 => DecodeEncodes2(s);
    case 3 => DecodeEncodes3(s);
    case _ => DecodeEncodes4(s);
  }

  /** Well-formed means encoded: the accepted names are exactly the UTF-8 forms of
      sequences of scalar values. */
  lemma {:induction false} EncodedIsUtf8(cs: seq<int>)
    requires forall i :: 0 <= i < |cs| ==> IsScalar(cs[i])
    ensures IsUtf8(EncodeAll(cs))
  {
    if cs != [] {
      EncodedIsUtf8(cs[1..]);
      EncodedLeads(cs[0], EncodeAll(cs[1..]));
      assert EncodeAll(cs)[|Encode(cs[0])|..] == EncodeAll(cs[1..]);
    }
  }

  lemma {:induction false} Utf8IsEncoded(s: Bytes) returns (cs: seq<int>)
    requires IsUtf8(s)
    ensures forall i :: 0 <= i < |cs| ==> IsScalar(cs[i])
    ensures EncodeAll(cs) == s
    decreases |s|
  {
    if s == [] {
      cs := [];
    } else {
      var n := LeadLength(s);
      var rest := Utf8IsEncoded(s[n..]);
      DecodeEncodes(s);
      cs := [Decode(s)] + rest;
      assert cs[1..] == rest;
      assert s == s[..n] + s[n..];
    }
  }

  // ---------------------------------------------------------------------
  // The scanner
  // ---------------------------------------------------------------------

  function SkipSpace(s: Bytes): (r: Bytes)
    ensures |r| <= |s| && r == s[|s| - |r|..]
    ensures forall i :: 0 <= i < |s| - |r| ==> IsSpace(s[i])
    ensures r != [] ==> !IsSpace(r[0])
  {
    if s != [] && IsSpace(s[0]) then SkipSpace(s[1..]) else s
  }

  function ExpectByte(s: Bytes, b: Byte): Option<Bytes> {
    if s != [] && s[0] == b then Some(s[1..]) else None
  }

  function StripPrefix(s: Bytes, prefix: Bytes): Option<Bytes> {
    if prefix <= s then Some(s[|prefix|..]) else None
  }

  /** Position of the first quote or backslash. */
  function FindDelimiter(s: Bytes): (r: Option<nat>)
    ensures r.Some? ==> r.value < |s| && (s[r.value] == QUOTE || s[r.value] == BACKSLASH)
    ensures forall i :: 0 <= i < (if r.Some? then r.value else |s|) ==> s[i] != QUOTE && s[i] != BACKSLASH
  {
    if s == [] then None
    else if s[0] == QUOTE || s[0] == BACKSLASH then Some(0)
    else match FindDelimiter(s[1..])
      case None => None
      case Some(i) => Some(i + 1)
  }

  /** With the opening quote behind: the name up to its closing quote. */
  function ScanName(s: Bytes): Option<Bytes> {
    match FindDelimiter(s)
    case None => None
    case Some(end) => if s[end] == QUOTE && IsUtf8(s[..end]) then Some(s[..end]) else None
  }

  function ExpectAfterSpace(s: Option<Bytes>, b: Byte): Option<Bytes> {
    match s
    case None => None
    case Some(rest) => ExpectByte(SkipSpace(rest), b)
  }

  /** Behind the key: a colon, then the quoted name. */
  function ScanValue(s: Bytes): Option<Bytes> {
    match ExpectAfterSpace(ExpectAfterSpace(Some(s), COLON), QUOTE)
    case None => None
    case Some(rest) => ScanName(rest)
  }

  /** The opening brace and the key, if the key is `method`. */
  function ScanKey(body: Bytes): Option<Bytes> {
    match ExpectAfterSpace(ExpectAfterSpace(Some(body), BRACE), QUOTE)
    case None => None
    case Some(open) => StripPrefix(open, METHOD_KEY)
  }

  function ScanLeadingMethod(body: Bytes): Option<Bytes> {
    match ScanKey(body)
    case None => None
    case Some(rest) => ScanValue(rest)
  }

  // ---------------------------------------------------------------------
  // The language
  // ---------------------------------------------------------------------

  predicate IsSpaces(s: Bytes) {
    forall i :: 0 <= i < |s| ==> IsSpace(s[i])
  }

  /** A name that can stand between quotes as it is. */
  predicate IsPlainName(name: Bytes) {
    IsUtf8(name) && forall i :: 0 <= i < |name| ==> name[i] != QUOTE && name[i] != BACKSLASH
  }

  /** The four gaps a body may leave around its tokens, and whatever follows. */
  datatype Layout = Layout(s0: Bytes, s1: Bytes, s2: Bytes, s3: Bytes, tail: Bytes)

  ghost predicate Blank(l: Layout) {
    IsSpaces(l.s0) && IsSpaces(l.s1) && IsSpaces(l.s2) && IsSpaces(l.s3)
  }

  function PrintValue(s2: Bytes, s3: Bytes, name: Bytes, tail: Bytes): Bytes {
    s2 + [COLON] + (s3 + [QUOTE] + (name + [QUOTE] + tail))
  }

  function PrintKey(s0: Bytes, s1: Bytes, rest: Bytes): Bytes {
    s0 + [BRACE] + (s1 + [QUOTE] + (METHOD_KEY + rest))
  }

  function Print(l: Layout, name: Bytes): Bytes {
    PrintKey(l.s0, l.s1, PrintValue(l.s2, l.s3, name, l.tail))
  }

  // ---------------------------------------------------------------------
  // Printing scans back
  // ---------------------------------------------------------------------

  lemma {:induction false} SkipSpaceStops(space: Bytes, rest: Bytes)
    requires IsSpaces(space) && (rest == [] || !IsSpace(rest[0]))
    ensures SkipSpace(space + rest) == rest
  {
    if space == [] {
      assert space + rest == rest;
    } else {
      assert (space + rest)[1..] == space[1..] + rest;
      SkipSpaceStops(space[1..], rest);
    }
  }

  lemma ExpectAfterSpaceBack(space: Bytes, b: Byte, rest: Bytes)
    requires IsSpaces(space) && !IsSpace(b)
    ensures ExpectAfterSpace(Some(space + [b] + rest), b) == Some(rest)
  {
    assert space + [b] + rest == space + ([b] + rest);
    SkipSpaceStops(space, [b] + rest);
    assert ([b] + rest)[1..] == rest;
  }

  lemma ScanNameBack(name: Bytes, tail: Bytes)
    requires IsPlainName(name)
    ensures ScanName(name + [QUOTE] + tail) == Some(name)
  {
    var s := name + [QUOTE] + tail;
    assert s[|name|] == QUOTE;
    assert forall i :: 0 <= i < |name| ==> s[i] == name[i];
    assert FindDelimiter(s) == Some(|name|);
    assert s[..|name|] == name;
  }

  lemma ScanKeyBack(s0: Bytes, s1: Bytes, rest: Bytes)
    requires IsSpaces(s0) && IsSpaces(s1)
    ensures ScanKey(PrintKey(s0, s1, rest)) == Some(rest)
  {
    var keyed := METHOD_KEY + rest;
    ExpectAfterSpaceBack(s0, BRACE, s1 + [QUOTE] + keyed);
    ExpectAfterSpaceBack(s1, QUOTE, keyed);
    assert METHOD_KEY <= keyed && keyed[|METHOD_KEY|..] == rest;
  }

  lemma ScanValueBack(s2: Bytes, s3: Bytes, name: Bytes, tail: Bytes)
    requires IsSpaces(s2) && IsSpaces(s3) && IsPlainName(name)
    ensures ScanValue(PrintValue(s2, s3, name, tail)) == Some(name)
  {
    var quoted := name + [QUOTE] + tail;
    ExpectAfterSpaceBack(s2, COLON, s3 + [QUOTE] + quoted);
    ExpectAfterSpaceBack(s3, QUOTE, quoted);
    ScanNameBack(name, tail);
  }

  /** Any plain name, with any whitespace around the tokens and anything at all
      after it, scans back to itself. */
  lemma PrintScansBack(l: Layout, name: Bytes)
    requires Blank(l) && IsPlainName(name)
    ensures ScanLeadingMethod(Print(l, name)) == Some(name)
  {
    ScanKeyBack(l.s0, l.s1, PrintValue(l.s2, l.s3, name, l.tail));
    ScanValueBack(l.s2, l.s3, name, l.tail);
  }

  // ---------------------------------------------------------------------
  // Nothing else is accepted
  // ---------------------------------------------------------------------

  /** Where the scanner found a byte behind whitespace, the input splits there. */
  lemma ExpectAfterSpaceSplits(s: Bytes, b: Byte) returns (space: Bytes)
    requires ExpectAfterSpace(Some(s), b).Some?
    ensures IsSpaces(space) && s == space + [b] + ExpectAfterSpace(Some(s), b).value
  {
    var rest := SkipSpace(s);
    space := s[..|s| - |rest|];
    assert s == space + rest;
    assert rest == [b] + rest[1..];
  }

  lemma ScanNameSplits(s: Bytes) returns (tail: Bytes)
    requires ScanName(s).Some?
    ensures IsPlainName(ScanName(s).value) && s == ScanName(s).value + [QUOTE] + tail
  {
    var end := FindDelimiter(s).value;
    tail := s[end + 1..];
    assert s == s[..end] + [s[end]] + tail;
  }

  lemma ScanValueSplits(s: Bytes) returns (s2: Bytes, s3: Bytes, tail: Bytes)
    requires ScanValue(s).Some?
    ensures IsSpaces(s2) && IsSpaces(s3) && IsPlainName(ScanValue(s).value)
    ensures s == PrintValue(s2, s3, ScanValue(s).value, tail)
  {
    s2 := ExpectAfterSpaceSplits(s, COLON);
    var r3 := ExpectAfterSpace(Some(s), COLON).value;
    s3 := ExpectAfterSpaceSplits(r3, QUOTE);
    tail := ScanNameSplits(ExpectAfterSpace(Some(r3), QUOTE).value);
  }

  lemma ScanKeySplits(body: Bytes) returns (s0: Bytes, s1: Bytes)
    requires ScanKey(body).Some?
    ensures IsSpaces(s0) && IsSpaces(s1)
    ensures body == PrintKey(s0, s1, ScanKey(body).value)
  {
    s0 := ExpectAfterSpaceSplits(body, BRACE);
    var r0 := ExpectAfterSpace(Some(body), BRACE).value;
    s1 := ExpectAfterSpaceSplits(r0, QUOTE);
    var r1 := ExpectAfterSpace(Some(r0), QUOTE).value;
    assert r1 == METHOD_KEY + r1[|METHOD_KEY|..];
  }

  lemma ScannedWasPrinted(body: Bytes) returns (l: Layout)
    requires ScanLeadingMethod(body).Some?
    ensures Blank(l) && IsPlainName(ScanLeadingMethod(body).value)
    ensures body == Print(l, ScanLeadingMethod(body).value)
  {
    var s0, s1 := ScanKeySplits(body);
    var s2, s3, tail := ScanValueSplits(ScanKey(body).value);
    l := Layout(s0, s1, s2, s3, tail);
  }

  /** The scanner returns a name exactly when the body is whitespace, a brace,
      whitespace, `"method"`, whitespace, a colon, whitespace, that name between
      quotes, and any tail. */
  lemma ScansExactly(body: Bytes, name: Bytes)
    ensures ScanLeadingMethod(body) == Some(name)
       <==> IsPlainName(name) && exists l :: Blank(l) && body == Print(l, name)
  {
    if ScanLeadingMethod(body) == Some(name) {
      var l := ScannedWasPrinted(body);
    }
    if IsPlainName(name) && exists l :: Blank(l) && body == Print(l, name) {
      var l :| Blank(l) && body == Print(l, name);
      PrintScansBack(l, name);
    }
  }

  /** A body is scanned to one name at most, however it is laid out. */
  lemma PrintIsUnambiguous(l: Layout, m: Bytes, k: Layout, n: Bytes)
    requires Blank(l) && Blank(k) && IsPlainName(m) && IsPlainName(n) && Print(l, m) == Print(k, n)
    ensures m == n
  {
    PrintScansBack(l, m);
    PrintScansBack(k, n);
  }

  // ---------------------------------------------------------------------
  // The language in characters
  // ---------------------------------------------------------------------

  /** The bytes of a text of plain characters. */
  ghost function Ascii(text: string): (s: Bytes)
    requires forall i :: 0 <= i < |text| ==> text[i] as int < 128
    ensures |s| == |text| && forall i :: 0 <= i < |text| ==> s[i] as int == text[i] as int
  {
    seq(|text|, i requires 0 <= i < |text| => text[i] as int as Byte)
  }

  /** Only spaces, tabs, line feeds and carriage returns. */
  ghost predicate IsGap(s: Bytes) {
    forall i :: 0 <= i < |s| ==> s[i] as int in {0x20, 0x09, 0x0A, 0x0D}
  }

  /** A quoted name that needs no unescaping: the UTF-8 form of some text, with no
      quotation mark and no backslash in it. */
  ghost predicate IsNameBytes(name: Bytes) {
    && (exists cs :: AllScalar(cs) && EncodeAll(cs) == name)
    && Ascii("\"")[0] !in name && Ascii("\\")[0] !in name
  }

  ghost predicate AllScalar(cs: seq<int>) {
    forall i :: 0 <= i < |cs| ==> IsScalar(cs[i])
  }

  /** The text of a body, token by token. */
  ghost function Text(l: Layout, name: Bytes): Bytes {
    l.s0 + Ascii("{") + l.s1 + Ascii("\"method\"") + l.s2 + Ascii(":") + l.s3
    + Ascii("\"") + name + Ascii("\"") + l.tail
  }

  ghost predicate HasGaps(l: Layout) {
    IsGap(l.s0) && IsGap(l.s1) && IsGap(l.s2) && IsGap(l.s3)
  }

  lemma GapsAreSpaces(s: Bytes)
    ensures IsGap(s) <==> IsSpaces(s)
  {}

  lemma TokensAre()
    ensures Ascii("{") == [BRACE] && Ascii(":") == [COLON] && Ascii("\"") == [QUOTE] && Ascii("\\") == [BACKSLASH]
    ensures Ascii("\"method\"") == [QUOTE] + METHOD_KEY
  {}

  lemma NamesArePlain(name: Bytes)
    ensures IsNameBytes(name) <==> IsPlainName(name)
  {
    TokensAre();
    if cs :| AllScalar(cs) && EncodeAll(cs) == name {
      EncodedIsUtf8(cs);
    }
    if IsUtf8(name) {
      var cs := Utf8IsEncoded(name);
      assert AllScalar(cs);
    }
  }

  lemma TextIsPrinted(l: Layout, name: Bytes)
    ensures Text(l, name) == Print(l, name)
  {
    TokensAre();
  }

  lemma LayoutsAgree(l: Layout, name: Bytes)
    ensures HasGaps(l) <==> Blank(l)
    ensures Text(l, name) == Print(l, name)
  {
    GapsAreSpaces(l.s0);
    GapsAreSpaces(l.s1);
    GapsAreSpaces(l.s2);
    GapsAreSpaces(l.s3);
    TextIsPrinted(l, name);
  }

  ghost predicate HasText(body: Bytes, name: Bytes) {
    exists l :: HasGaps(l) && body == Text(l, name)
  }

  lemma PrintedHasText(body: Bytes, name: Bytes, l: Layout)
    requires Blank(l) && body == Print(l, name)
    ensures HasText(body, name)
  {
    LayoutsAgree(l, name);
  }

  lemma TextIsAPrint(body: Bytes, name: Bytes) returns (l: Layout)
    requires HasText(body, name)
    ensures Blank(l) && body == Print(l, name)
  {
    l :| HasGaps(l) && body == Text(l, name);
    LayoutsAgree(l, name);
  }

  /** The language, spelled out: a name is read off a body exactly when the body is a
      gap, a brace, a gap, `"method"`, a gap, a colon, a gap, the name in quotes, and
      any tail. */
  lemma ScansExactlyThisText(body: Bytes, name: Bytes)
    ensures ScanLeadingMethod(body) == Some(name) <==> IsNameBytes(name) && HasText(body, name)
  {
    NamesArePlain(name);
    if ScanLeadingMethod(body) == Some(name) {
      var l := ScannedWasPrinted(body);
      PrintedHasText(body, name, l);
    } else if IsNameBytes(name) && HasText(body, name) {
      var l := TextIsAPrint(body, name);
      PrintScansBack(l, name);
    }
  }
}
