/** File lists as clipboard text: `text/uri-list` (section 5 of RFC 2483) and
    `x-special/gnome-copied-files`, over Unix paths as bytes. */
module UriList {
  import opened ByteStrings
  import opened Text
  import opened Wrappers

  /** Decoding of bytes as UTF-8 with replacement characters, left uninterpreted. */
  datatype TextTools = TextTools(lossy: Bytes -> string)

  /** Well-formed UTF-8 decodes to the text it encodes. */
  ghost predicate LossyLaw(t: TextTools) {
    forall s: string :: t.lossy(Utf8(s)) == s
  }

  // ----- Writing -----

  const PERCENT: byte := 0x25
  const SLASH: byte := 0x2F
  const PLUS: byte := 0x2B

  /** The unreserved set of RFC 3986, section 2.3, and the slash. */
  predicate Kept(b: byte) {
    || 0x30 <= b <= 0x39 || 0x41 <= b <= 0x5A || 0x61 <= b <= 0x7A
    || b == SLASH || b == 0x2D || b == 0x5F || b == 0x2E || b == 0x7E
  }

  function HexDigit(n: nat): char
    requires n < 16
  {
    if n < 10 then (0x30 + n) as char else (0x37 + n) as char
  }

  function EncodeByte(b: byte): string {
    if Kept(b) then [b as char] else ['%', HexDigit(b / 16), HexDigit(b % 16)]
  }

  function EncodePath(path: Bytes): string {
    if path == [] then "" else EncodePath(path[..|path| - 1]) + EncodeByte(path[|path| - 1])
  }

  function PathToUri(path: Bytes): string {
    "file://" + EncodePath(path)
  }

  function ToUriList(paths: seq<Bytes>): string {
    if paths == [] then "" else ToUriList(paths[..|paths| - 1]) + PathToUri(paths[|paths| - 1]) + "\r\n"
  }

  function GnomeLines(paths: seq<Bytes>): string {
    if paths == [] then "" else GnomeLines(paths[..|paths| - 1]) + "\n" + PathToUri(paths[|paths| - 1])
  }

  function ToGnomeCopiedFiles(paths: seq<Bytes>): string {
    "copy" + GnomeLines(paths)
  }

  method WriteUri(path: Bytes) returns (out: string)
    ensures out == PathToUri(path)
  {
    out := "file://";
    var i := 0;
    while i < |path|
      invariant 0 <= i <= |path| && out == PathToUri(path[..i])
    {
      var b := path[i];
      assert path[..i + 1][..i] == path[..i];
      if Kept(b) { out := out + [b as char]; } else { out := out + ['%', HexDigit(b / 16), HexDigit(b % 16)]; }
      i := i + 1;
    }
    assert path[..i] == path;
  }

  method WriteUriList(paths: seq<Bytes>) returns (s: string)
    ensures s == ToUriList(paths)
  {
    s := "";
    var i := 0;
    while i < |paths|
      invariant 0 <= i <= |paths| && s == ToUriList(paths[..i])
    {
      var uri := WriteUri(paths[i]);
      assert paths[..i + 1][..i] == paths[..i];
      s := s + uri;
      s := s + "\r\n";
      i := i + 1;
    }
    assert paths[..i] == paths;
  }

  method WriteGnomeCopiedFiles(paths: seq<Bytes>) returns (s: string)
    ensures s == ToGnomeCopiedFiles(paths)
  {
    s := "copy";
    var i := 0;
    while i < |paths|
      invariant 0 <= i <= |paths| && s == "copy" + GnomeLines(paths[..i])
    {
      var uri := WriteUri(paths[i]);
      assert paths[..i + 1][..i] == paths[..i];
      s := s + "\n";
      s := s + uri;
      i := i + 1;
    }
    assert paths[..i] == paths;
  }

  /** The two formats: a URI on each line, every line ended by carriage return and line feed; or `copy` and
      then a URI on each line, with no newline at the end. */
  lemma ListFormats(paths: seq<Bytes>, path: Bytes)
    ensures ToUriList([]) == "" && ToGnomeCopiedFiles([]) == "copy"
    ensures ToUriList(paths + [path]) == ToUriList(paths) + ("file://" + EncodePath(path)) + "\r\n"
    ensures ToGnomeCopiedFiles(paths + [path]) == ToGnomeCopiedFiles(paths) + ("\n" + ("file://" + EncodePath(path)))
  {
    assert (paths + [path])[..|paths|] == paths;
    assert "copy" + "" == "copy";
    var lines, uri := GnomeLines(paths), PathToUri(path);
    Joined("copy", lines, "\n", uri);
    hide EncodePath;
  }

  lemma Joined(a: string, b: string, c: string, d: string)
    ensures a + (b + c + d) == a + b + (c + d)
  {
  }

  lemma PathSpelling(path: Bytes, b: byte)
    ensures EncodePath([]) == "" && EncodePath(path + [b]) == EncodePath(path) + EncodeByte(b)
  {
    assert (path + [b])[..|path|] == path;
    hide EncodeByte;
  }

  // ----- Reading -----

  predicate IsNewline(c: char) {
    c == '\n' || c == '\r'
  }

  /** The pieces between newline characters; one more piece than there are newlines. */
  function Split(s: string): (lines: seq<string>)
    ensures lines != []
  {
    if s == "" then [""] else
      var before := Split(s[..|s| - 1]);
      if IsNewline(s[|s| - 1]) then before + [""]
      else before[..|before| - 1] + [before[|before| - 1] + [s[|s| - 1]]]
  }

  function HexValue(b: byte): Option<nat> {
    if 0x30 <= b <= 0x39 then Some(b - 0x30)
    else if 0x41 <= b <= 0x46 then Some(b - 0x37)
    else if 0x61 <= b <= 0x66 then Some(b - 0x57)
    else None
  }

  /** Two characters read as a base-16 number: a leading plus sign is allowed, a minus sign is not. */
  function HexPair(x: byte, y: byte): Option<byte> {
    if x == PLUS then (match HexValue(y) case None => None case Some(n) => Some(n))
    else match (HexValue(x), HexValue(y))
      case (Some(h), Some(l)) => var v := 16 * h + l; if v < 0x100 then Some(v) else None
      case _ => None
  }

  /** Undoes percent-encoding; `None` for a cut or malformed escape. */
  function Unescape(b: Bytes): Option<Bytes> {
    if b == [] then Some([])
    else if b[0] != PERCENT then Prepend([b[0]], Unescape(b[1..]))
    else if |b| < 3 then None
    else match HexPair(b[1], b[2])
      case None => None
      case Some(v) => Prepend([v], Unescape(b[3..]))
  }

  function Prepend(front: Bytes, rest: Option<Bytes>): Option<Bytes> {
    match rest case None => None case Some(r) => Some(front + r)
  }

  lemma PrependNothing(rest: Option<Bytes>)
    ensures Prepend([], rest) == rest
  {
    if rest.Some? { assert [] + rest.value == rest.value; }
  }

  lemma PrependOne(out: Bytes, v: byte, rest: Option<Bytes>)
    ensures Prepend(out, Prepend([v], rest)) == Prepend(out + [v], rest)
  {
    if rest.Some? { assert out + ([v] + rest.value) == (out + [v]) + rest.value; }
  }

  function Decode(s: string): Option<Bytes> {
    match Unescape(Utf8(s))
    case None => None
    case Some(out) => if out == [] then None else Some(out)
  }

  method RunDecode(s: string) returns (r: Option<Bytes>)
    ensures r == Decode(s)
  {
    var b := Utf8(s);
    var out: Bytes := [];
    var i := 0;
    assert b[0..] == b;
    PrependNothing(Unescape(b));
    while i < |b|
      invariant 0 <= i <= |b|
      invariant Unescape(b) == Prepend(out, Unescape(b[i..]))
      decreases |b| - i
    {
      ghost var tail := b[i..];
      assert tail[1..] == b[i + 1..];
      if b[i] == PERCENT {
        if i + 2 >= |b| { return None; }
        assert tail[3..] == b[i + 3..];
        var v := HexPair(b[i + 1], b[i + 2]);
        if v.None? { return None; }
        PrependOne(out, v.value, Unescape(b[i + 3..]));
        out := out + [v.value];
        i := i + 3;
      } else {
        PrependOne(out, b[i], Unescape(b[i + 1..]));
        out := out + [b[i]];
        i := i + 1;
      }
    }
    assert b[i..] == [] && out + [] == out;
    r := if out == [] then None else Some(out);
  }

  const SCHEME: string := "file://"
  const LOCALHOST: string := "localhost"

  function IndexOfSlash(s: string): nat {
    if s == "" || s[0] == '/' then 0 else 1 + IndexOfSlash(s[1..])
  }

  function UriToPath(uri: string): Option<Bytes> {
    if !(SCHEME <= uri) then None else
      var rest := uri[|SCHEME|..];
      if rest != "" && rest[0] == '/' then Decode(rest)
      else
        var i := IndexOfSlash(rest);
        if i >= |rest| || rest[..i] != LOCALHOST then None else Decode("/" + rest[i + 1..])
  }

  /** A trimmed line that is neither empty nor a comment and names a local file. */
  function ParseLine(line: string): Option<Bytes> {
    var l := TrimEnd(TrimStart(line));
    if l == "" || l[0] == '#' then None else UriToPath(l)
  }

  function ParseLines(lines: seq<string>): seq<Bytes> {
    if lines == [] then [] else
      ParseLines(lines[..|lines| - 1]) +
      match ParseLine(lines[|lines| - 1]) case None => [] case Some(p) => [p]
  }

  function Parse(t: TextTools, body: Bytes): seq<Bytes> {
    ParseLines(Split(t.lossy(body)))
  }

  // ----- Percent-encoding round trip -----

  /** A character that needs no care: ASCII, visible. */
  predicate Plain(c: char) {
    0x21 <= c as int <= 0x7E
  }

  predicate AllPlain(s: string) {
    forall i | 0 <= i < |s| :: Plain(s[i])
  }

  lemma {:induction false} EncodePathPlain(path: Bytes)
    ensures AllPlain(EncodePath(path))
  {
    if path != [] { EncodePathPlain(path[..|path| - 1]); }
  }

  lemma {:induction false} UnescapeConcat(a: Bytes, b: Bytes)
    requires Unescape(a).Some?
    ensures Unescape(a + b) == Prepend(Unescape(a).value, Unescape(b))
  {
    if a == [] {
      assert a + b == b;
      PrependNothing(Unescape(b));
    } else {
      var n := if a[0] == PERCENT then 3 else 1;
      assert (a + b)[n..] == a[n..] + b;
      UnescapeConcat(a[n..], b);
      if Unescape(b).Some? {
        var v := if n == 3 then HexPair(a[1], a[2]).value else a[0];
        assert [v] + (Unescape(a[n..]).value + Unescape(b).value) == ([v] + Unescape(a[n..]).value) + Unescape(b).value;
      }
    }
  }

  lemma HexRoundTrip(b: byte)
    ensures Utf8Char(HexDigit(b / 16)) == [HexDigit(b / 16) as int]
    ensures Utf8Char(HexDigit(b % 16)) == [HexDigit(b % 16) as int]
    ensures HexPair(HexDigit(b / 16) as int, HexDigit(b % 16) as int) == Some(b)
  {
  }

  lemma EncodeByteRoundTrip(b: byte)
    ensures Unescape(Utf8(EncodeByte(b))) == Some([b])
  {
    var s := EncodeByte(b);
    if Kept(b) {
      assert s[1..] == "" && Utf8(s) == [b] + Utf8("");
      assert [b][1..] == [] && Unescape([]) == Some([]);
    } else {
      HexRoundTrip(b);
      var h, l := HexDigit(b / 16), HexDigit(b % 16);
      assert s[1..] == [h, l] && [h, l][1..] == [l] && [l][1..] == "";
      assert Utf8([l]) == [l as int] + [] && Utf8([h, l]) == [h as int] + [l as int];
      var e: Bytes := [PERCENT, h as int, l as int];
      assert Utf8(s) == e;
      assert e[1] == h as int && e[2] == l as int && e[3..] == [];
      assert Unescape(e[3..]) == Some([]);
      assert Unescape(e) == Prepend([b], Unescape(e[3..]));
      assert [b] + [] == [b];
    }
  }

  /** Decoding undoes encoding, byte for byte. */
  lemma {:induction false} EncodeRoundTrip(path: Bytes)
    ensures Unescape(Utf8(EncodePath(path))) == Some(path)
  {
    if path != [] {
      var init, last := path[..|path| - 1], path[|path| - 1];
      EncodeRoundTrip(init);
      EncodeByteRoundTrip(last);
      Utf8Concat(EncodePath(init), EncodeByte(last));
      UnescapeConcat(Utf8(EncodePath(init)), Utf8(EncodeByte(last)));
      assert path == init + [last];
    }
  }

  // ----- The characters of an escape -----

  const LOWER_HEX: string := "0123456789abcdef"
  const UPPER_HEX: string := "0123456789ABCDEF"

  /** A byte is written as itself when it is a letter, a digit or one of five marks; any other as a percent
      sign and its two upper-case digits. */
  lemma ByteSpelling(b: byte)
    ensures var c := b as char;
            EncodeByte(b) ==
            if 'A' <= c <= 'Z' || 'a' <= c <= 'z' || '0' <= c <= '9' || c in "/-_.~"
            then [c] else "%" + [UPPER_HEX[b / 16], UPPER_HEX[b % 16]]
  {
    var c := b as char;
    assert c in "/-_.~" <==> c == '/' || c == '-' || c == '_' || c == '.' || c == '~' by {
      var marks := "/-_.~";
      assert marks[0] == '/' && marks[1] == '-' && marks[2] == '_' && marks[3] == '.' && marks[4] == '~';
    }
    HexDigits(b / 16);
    HexDigits(b % 16);
    hide HexDigit;
  }

  lemma HexDigits(n: nat)
    requires n < 16
    ensures HexDigit(n) == UPPER_HEX[n]
  {
  }

  /** `c` is the digit `n`, in either case. */
  predicate IsDigit(c: byte, n: nat) {
    n < 16 && (c == LOWER_HEX[n] as int || c == UPPER_HEX[n] as int)
  }

  lemma DigitReads(c: byte)
    ensures forall n: nat :: HexValue(c) == Some(n) <==> IsDigit(c, n)
  {
    var digits := seq(16, (i: nat) => i);
    forall n: nat ensures HexValue(c) == Some(n) <==> IsDigit(c, n) {
      if n < 16 { assert digits[n] == n; }
    }
  }

  /** Both cases of a digit read alike; so `%2f` and `%2F` are the same byte. A plus sign may stand in place
      of a leading zero. Nothing else is read. */
  lemma EscapeReads(x: byte, y: byte)
    ensures forall h: nat, l: nat | IsDigit(x, h) && IsDigit(y, l) :: HexPair(x, y) == Some(16 * h + l)
    ensures forall l: nat | x == '+' as int && IsDigit(y, l) :: HexPair(x, y) == Some(l)
    ensures HexPair(x, y).Some? ==>
              exists h: nat, l: nat :: (IsDigit(x, h) || (x == '+' as int && h == 0)) && IsDigit(y, l)
  {
    DigitReads(x);
    DigitReads(y);
    hide HexValue;
    if HexPair(x, y).Some? {
      var h, l := if x == PLUS then 0 else HexValue(x).value, HexValue(y).value;
      assert (IsDigit(x, h) || (x == '+' as int && h == 0)) && IsDigit(y, l);
    }
  }

  /** What follows a well-formed front: an escape adds the byte it names, in either case of its digits; a
      malformed or cut one spoils the whole. */
  lemma EscapeAfter(front: Bytes, x: byte, y: byte, rest: Bytes)
    requires Unescape(front).Some?
    ensures match HexPair(x, y)
            case None => Unescape(front + (['%' as int, x, y] + rest)) == None
            case Some(v) =>
              Unescape(front + (['%' as int, x, y] + rest)) == Prepend(Unescape(front).value + [v], Unescape(rest))
    ensures Unescape(front + ['%' as int, x]) == None && Unescape(front + ['%' as int]) == None
    ensures x != '%' as int ==>
              Unescape(front + ([x] + rest)) == Prepend(Unescape(front).value + [x], Unescape(rest))
  {
    var escape: Bytes := ['%' as int, x, y];
    assert (escape + rest)[3..] == rest && ([x] + rest)[1..] == rest;
    UnescapeConcat(front, escape + rest);
    UnescapeConcat(front, [x] + rest);
    UnescapeConcat(front, ['%' as int, x]);
    UnescapeConcat(front, ['%' as int]);
    if HexPair(x, y).Some? { PrependOne(Unescape(front).value, HexPair(x, y).value, Unescape(rest)); }
    PrependOne(Unescape(front).value, x, Unescape(rest));
    hide HexPair;
  }

  /** A URI stands for the bytes its escapes spell, and for nothing when that is no byte at all. */
  lemma DecodedIff(s: string, b: Bytes)
    ensures Decode(s) == Some(b) <==> b != [] && Unescape(Utf8(s)) == Some(b)
    ensures Decode("") == None
  {
    hide Utf8Char;
  }

  predicate Absolute(path: Bytes) {
    path != [] && path[0] == SLASH
  }

  lemma {:induction false} AbsoluteEncoding(path: Bytes)
    requires Absolute(path)
    ensures EncodePath(path) != "" && EncodePath(path)[0] == '/'
  {
    if |path| == 1 {
      assert EncodePath([]) == "";
      assert EncodePath(path) == "" + EncodeByte(SLASH);
    } else {
      AbsoluteEncoding(path[..|path| - 1]);
    }
  }

  lemma PlainNeedsNoTrim(s: string)
    requires AllPlain(s)
    ensures TrimEnd(TrimStart(s)) == s
  {
  }

  lemma UriReadsBack(path: Bytes)
    requires Absolute(path)
    ensures ParseLine(PathToUri(path)) == Some(path)
  {
    var uri := PathToUri(path);
    EncodePathPlain(path);
    PlainNeedsNoTrim(uri);
    AbsoluteEncoding(path);
    EncodeRoundTrip(path);
    assert SCHEME <= uri && uri[|SCHEME|..] == EncodePath(path);
  }

  // ----- Lines -----

  predicate NoNewline(s: string) {
    forall i | 0 <= i < |s| :: !IsNewline(s[i])
  }

  /** Text without a newline extends the last line. */
  lemma {:induction false} SplitExtend(s: string, u: string)
    requires NoNewline(u)
    ensures Split(s + u) == Split(s)[..|Split(s)| - 1] + [Split(s)[|Split(s)| - 1] + u]
  {
    var lines := Split(s);
    if u == "" {
      assert s + u == s && lines[|lines| - 1] + u == lines[|lines| - 1];
      assert lines == lines[..|lines| - 1] + [lines[|lines| - 1]];
    } else {
      var v, c := u[..|u| - 1], u[|u| - 1];
      SplitExtend(s, v);
      assert (s + u)[..|s + u| - 1] == s + v && (s + u)[|s + u| - 1] == c;
      assert (lines[|lines| - 1] + v) + [c] == lines[|lines| - 1] + u;
    }
  }

  lemma SplitNewline(s: string, c: char)
    requires IsNewline(c)
    ensures Split(s + [c]) == Split(s) + [""]
  {
    assert (s + [c])[..|s|] == s;
  }

  lemma ParseLinesSnoc(lines: seq<string>, l: string)
    ensures ParseLines(lines + [l]) == ParseLines(lines) + match ParseLine(l) case None => [] case Some(p) => [p]
  {
    assert (lines + [l])[..|lines|] == lines;
  }

  lemma EmptyLineSaysNothing()
    ensures ParseLine("") == None
  {
  }

  lemma UriHasNoNewline(path: Bytes)
    ensures NoNewline(PathToUri(path))
  {
    EncodePathPlain(path);
  }

  /** Nothing has been written since the last newline. */
  predicate OnFreshLine(s: string) {
    Split(s)[|Split(s)| - 1] == ""
  }

  /** A URI written on a fresh line adds one line that reads back to the path. */
  lemma LastLineUri(s: string, path: Bytes)
    requires Absolute(path) && OnFreshLine(s)
    ensures ParseLines(Split(s + PathToUri(path))) == ParseLines(Split(s)) + [path]
  {
    var lines, uri := Split(s), PathToUri(path);
    var init := lines[..|lines| - 1];
    UriHasNoNewline(path);
    SplitExtend(s, uri);
    assert "" + uri == uri && lines == init + [""];
    UriReadsBack(path);
    EmptyLineSaysNothing();
    hide Split, PathToUri, ParseLine;
    ParseLinesSnoc(init, "");
    ParseLinesSnoc(init, uri);
    assert ParseLines(init) + [] == ParseLines(init);
  }

  lemma BlankLine(s: string, c: char)
    requires IsNewline(c)
    ensures ParseLines(Split(s + [c])) == ParseLines(Split(s)) && OnFreshLine(s + [c])
  {
    SplitNewline(s, c);
    EmptyLineSaysNothing();
    hide Split, ParseLine;
    ParseLinesSnoc(Split(s), "");
    assert ParseLines(Split(s)) + [] == ParseLines(Split(s));
  }

  lemma UriLine(s: string, path: Bytes)
    requires Absolute(path) && OnFreshLine(s)
    ensures ParseLines(Split(s + PathToUri(path) + "\r\n")) == ParseLines(Split(s)) + [path]
    ensures OnFreshLine(s + PathToUri(path) + "\r\n")
  {
    hide Split, ParseLines, PathToUri, OnFreshLine, Absolute;
    var u := s + PathToUri(path);
    LastLineUri(s, path);
    BlankLine(u, '\r');
    BlankLine(u + ['\r'], '\n');
    assert u + "\r\n" == (u + ['\r']) + ['\n'];
  }

  lemma {:induction false} UriListLines(paths: seq<Bytes>)
    requires forall p | p in paths :: Absolute(p)
    ensures ParseLines(Split(ToUriList(paths))) == paths && OnFreshLine(ToUriList(paths))
  {
    hide Split, ParseLines, PathToUri, OnFreshLine, Absolute;
    if paths == [] {
      NothingWritten();
    } else {
      var init, last := paths[..|paths| - 1], paths[|paths| - 1];
      UriListLines(init);
      UriLine(ToUriList(init), last);
      assert paths == init + [last];
    }
  }

  lemma NothingWritten()
    ensures ParseLines(Split("")) == [] && OnFreshLine("")
  {
    EmptyLineSaysNothing();
    hide ParseLine;
    assert Split("") == [] + [""];
    ParseLinesSnoc([], "");
  }

  lemma {:induction false} GnomeLinesRead(paths: seq<Bytes>)
    requires forall p | p in paths :: Absolute(p)
    ensures ParseLines(Split(ToGnomeCopiedFiles(paths))) == paths
  {
    hide Split, ParseLines, PathToUri, OnFreshLine, Absolute;
    if paths == [] {
      HeaderSaysNothing();
      assert "copy" + "" == "copy";
    } else {
      var init, last := paths[..|paths| - 1], paths[|paths| - 1];
      GnomeLinesRead(init);
      var s := ToGnomeCopiedFiles(init);
      BlankLine(s, '\n');
      LastLineUri(s + ['\n'], last);
      assert ToGnomeCopiedFiles(paths) == (s + ['\n']) + PathToUri(last);
      assert paths == init + [last];
    }
  }

  lemma HeaderSaysNothing()
    ensures ParseLines(Split("copy")) == []
  {
    SplitExtend("", "copy");
    assert "" + "copy" == "copy";
    assert Split("")[..0] + ["copy"] == [] + ["copy"];
    HeaderNamesNoFile();
    hide Split, ParseLine;
    ParseLinesSnoc([], "copy");
  }

  lemma HeaderNamesNoFile()
    ensures ParseLine("copy") == None
  {
    PlainNeedsNoTrim("copy");
    hide TrimStart, TrimEnd, Decode;
  }

  // ----- Parsing yields absolute paths only -----

  lemma DecodedSlash(s: string)
    requires s != "" && s[0] == '/'
    ensures Decode(s).Some? ==> Absolute(Decode(s).value)
  {
    assert Utf8(s) == [SLASH] + Utf8(s[1..]);
  }

  lemma ParsedLineAbsolute(line: string)
    ensures ParseLine(line).Some? ==> Absolute(ParseLine(line).value)
  {
    hide Decode, TrimStart, TrimEnd;
    var l := TrimEnd(TrimStart(line));
    if SCHEME <= l {
      var rest := l[|SCHEME|..];
      if rest != "" && rest[0] == '/' { DecodedSlash(rest); }
      var i := IndexOfSlash(rest);
      if i < |rest| { DecodedSlash("/" + rest[i + 1..]); }
    }
  }

  lemma {:induction false} ParsedAbsolute(lines: seq<string>)
    ensures forall p | p in ParseLines(lines) :: Absolute(p)
  {
    if lines != [] {
      ParsedAbsolute(lines[..|lines| - 1]);
      ParsedLineAbsolute(lines[|lines| - 1]);
    }
  }

  /** Whatever the clipboard holds, every path read from it is absolute. */
  lemma ParseYieldsAbsolute(t: TextTools, body: Bytes)
    ensures forall p | p in Parse(t, body) :: Absolute(p)
  {
    ParsedAbsolute(Split(t.lossy(body)));
  }

  // ----- Which lines name a file -----

  lemma {:induction false} FirstSlash(s: string, i: nat)
    requires i <= |s| && (forall j | 0 <= j < i :: s[j] != '/') && (i < |s| ==> s[i] == '/')
    ensures IndexOfSlash(s) == i
  {
    if 0 < i { FirstSlash(s[1..], i - 1); }
  }

  /** A line is read without the white space around it. It names a file when it begins with `file:///` or
      `file://localhost/`; a comment, a blank line, another scheme and another host name none. */
  lemma LineNamesFile(before: string, uri: string, after: string)
    requires forall c | c in before + after :: IsWhite(c)
    requires uri != "" ==> !IsWhite(uri[0]) && !IsWhite(uri[|uri| - 1])
    ensures ParseLine(before + uri + after) ==
            if "file:///" <= uri then Decode(uri[7..])
            else if "file://localhost/" <= uri then Decode(uri[16..])
            else None
  {
    TrimmedLine(before, uri, after);
    hide TrimStart, TrimEnd, Decode, IsWhite, IndexOfSlash;
    if SCHEME <= uri { HostIsLocal(uri); }
  }

  lemma HostIsLocal(uri: string)
    requires SCHEME <= uri
    ensures UriToPath(uri) ==
            if "file:///" <= uri then Decode(uri[7..])
            else if "file://localhost/" <= uri then Decode(uri[16..])
            else None
  {
    var rest := uri[7..];
    assert uri == SCHEME + rest;
    assert "file:///" <= uri <==> "/" <= rest;
    assert "file://localhost/" <= uri <==> "localhost/" <= rest;
    LocalHostIff(rest);
    hide Decode, IndexOfSlash;
    if "localhost/" <= rest { assert "/" + rest[10..] == rest[9..] == uri[16..]; }
  }

  lemma LocalHostIff(rest: string)
    ensures "localhost/" <= rest <==>
            IndexOfSlash(rest) < |rest| && rest[..IndexOfSlash(rest)] == "localhost"
  {
    SlashExists(rest);
    if "localhost/" <= rest { FirstSlash(rest, 9); }
  }

  lemma {:induction false} SlashExists(s: string)
    ensures IndexOfSlash(s) <= |s| && (IndexOfSlash(s) < |s| ==> s[IndexOfSlash(s)] == '/')
  {
    if s != "" && s[0] != '/' { SlashExists(s[1..]); }
  }

  lemma {:induction false} TrimmedLine(before: string, core: string, after: string)
    requires forall c | c in before + after :: IsWhite(c)
    requires core != "" ==> !IsWhite(core[0]) && !IsWhite(core[|core| - 1])
    ensures TrimEnd(TrimStart(before + core + after)) == core
    decreases |before| + |after|
  {
    hide IsWhite;
    var line := before + core + after;
    if before != "" {
      assert before[0] in before + after;
      assert line[1..] == before[1..] + core + after;
      TrimmedLine(before[1..], core, after);
    } else if core == "" {
      assert line == after;
      AllWhite(after);
    } else {
      assert line == core + after;
      TrimmedEnd(core, after);
    }
  }

  lemma {:induction false} AllWhite(s: string)
    requires forall c | c in s :: IsWhite(c)
    ensures TrimStart(s) == ""
  {
    hide IsWhite;
    if s != "" {
      assert s[0] in s;
      AllWhite(s[1..]);
    }
  }

  lemma {:induction false} TrimmedEnd(core: string, after: string)
    requires core != "" && !IsWhite(core[|core| - 1]) && forall c | c in after :: IsWhite(c)
    ensures TrimEnd(core + after) == core
  {
    hide IsWhite;
    if after == "" {
      assert core + after == core;
    } else {
      assert after[|after| - 1] in after;
      assert (core + after)[..|core + after| - 1] == core + after[..|after| - 1];
      TrimmedEnd(core, after[..|after| - 1]);
    }
  }

  /** Text breaks into lines at every line feed and every carriage return, and nowhere else. */
  lemma {:induction false} LinesBreakAtNewlines(s: string, c: char, u: string)
    requires c == '\n' || c == '\r'
    ensures Split(s + [c] + u) == Split(s) + Split(u)
  {
    if u == "" {
      assert s + [c] + u == s + [c];
      SplitNewline(s, c);
    } else {
      var v, d := u[..|u| - 1], u[|u| - 1];
      LinesBreakAtNewlines(s, c, v);
      OneMoreCharacter(s, c, v, d);
      assert s + [c] + v + [d] == s + [c] + u && v + [d] == u;
    }
    hide Split;
  }

  lemma OneMoreCharacter(s: string, c: char, v: string, d: char)
    requires Split(s + [c] + v) == Split(s) + Split(v)
    ensures Split(s + [c] + v + [d]) == Split(s) + Split(v + [d])
  {
    hide *;
    SplitLast(s + [c] + v, d);
    SplitLast(v, d);
    LastLineOfBoth(Split(s), Split(v), d);
  }

  /** Text without either is one line. */
  lemma OneLine(u: string)
    requires forall i | 0 <= i < |u| :: u[i] != '\n' && u[i] != '\r'
    ensures Split(u) == [u]
  {
    SplitExtend("", u);
    assert "" + u == u && Split("") == [""];
  }

  lemma LastLineOfBoth(xs: seq<string>, ys: seq<string>, d: char)
    requires ys != []
    ensures (xs + ys)[..|xs + ys| - 1] == xs + ys[..|ys| - 1] && (xs + ys)[|xs + ys| - 1] == ys[|ys| - 1]
    ensures (xs + ys)[..|xs + ys| - 1] + [ys[|ys| - 1] + [d]] == xs + (ys[..|ys| - 1] + [ys[|ys| - 1] + [d]])
    ensures xs + ys + [""] == xs + (ys + [""])
  {
  }

  lemma SplitLast(s: string, d: char)
    ensures Split(s + [d]) ==
            if IsNewline(d) then Split(s) + [""]
            else Split(s)[..|Split(s)| - 1] + [Split(s)[|Split(s)| - 1] + [d]]
  {
    assert (s + [d])[..|s|] == s;
  }

  /** A list of paths survives either format exactly when every path in it is absolute. */
  lemma RoundTripIffAbsolute(t: TextTools, paths: seq<Bytes>)
    requires LossyLaw(t)
    ensures Parse(t, Utf8(ToUriList(paths))) == paths <==> forall p | p in paths :: Absolute(p)
    ensures Parse(t, Utf8(ToGnomeCopiedFiles(paths))) == paths <==> forall p | p in paths :: Absolute(p)
  {
    hide Split, ParseLines, Utf8, ToUriList, ToGnomeCopiedFiles;
    assert t.lossy(Utf8(ToUriList(paths))) == ToUriList(paths);
    assert t.lossy(Utf8(ToGnomeCopiedFiles(paths))) == ToGnomeCopiedFiles(paths);
    if forall p | p in paths :: Absolute(p) {
      UriListLines(paths);
      GnomeLinesRead(paths);
    }
    ParseYieldsAbsolute(t, Utf8(ToUriList(paths)));
    ParseYieldsAbsolute(t, Utf8(ToGnomeCopiedFiles(paths)));
  }
}
