/** The sanitiser that turns a received file name into one that is safe to write. */
module FileName {
  import opened Text
  import opened Wrappers

  const MAX_BYTES: nat := 200
  const MAX_EXTENSION: nat := 16

  predicate IsSeparator(c: char) {
    c == '/' || c == '\\'
  }

  predicate IsControl(c: char) {
    c as int < 0x20 || 0x7F <= c as int < 0xA0
  }

  predicate Forbidden(c: char) {
    IsControl(c) || IsSeparator(c) || c == '<' || c == '>' || c == ':' || c == '"' || c == '|' || c == '?' || c == '*'
  }

  /** A dot or a space, which a name may not end with on Windows. */
  predicate IsTail(c: char) {
    c == '.' || c == ' '
  }

  /** What follows the last separator. */
  function Basename(s: string): string {
    if s == "" || IsSeparator(s[|s| - 1]) then "" else Basename(s[..|s| - 1]) + [s[|s| - 1]]
  }

  function Cleaned(s: string): string {
    if s == "" then "" else
      Cleaned(s[..|s| - 1]) + [if Forbidden(s[|s| - 1]) then '_' else s[|s| - 1]]
  }

  function TrimTail(s: string): string {
    if s != "" && IsTail(s[|s| - 1]) then TrimTail(s[..|s| - 1]) else s
  }

  /** The cleaned last component; NFC normalisation is left uninterpreted. */
  function Base(nfc: string -> string, raw: string): string {
    TrimTail(Cleaned(TrimStart(Basename(nfc(raw)))))
  }

  /** What precedes the first dot. */
  function Stem(s: string): string {
    if s == "" || s[0] == '.' then "" else [s[0]] + Stem(s[1..])
  }

  function UpperChar(c: char): char {
    if 'a' <= c <= 'z' then (c as int - 0x20) as char else c
  }

  function Upper(s: string): string {
    if s == "" then "" else [UpperChar(s[0])] + Upper(s[1..])
  }

  const RESERVED: seq<string> :=
    ["CON", "PRN", "AUX", "NUL", "COM1", "COM2", "COM3", "COM4", "COM5", "COM6", "COM7", "COM8", "COM9",
     "LPT1", "LPT2", "LPT3", "LPT4", "LPT5", "LPT6", "LPT7", "LPT8", "LPT9"]

  /** The stem is the name of a Windows device, in any case. */
  predicate Reserved(s: string) {
    Upper(Stem(s)) in RESERVED
  }

  function Marked(s: string): string {
    if Reserved(s) then s + "_" else s
  }

  function AfterLastDot(s: string): Option<string> {
    if s == "" then None
    else if s[|s| - 1] == '.' then Some("")
    else match AfterLastDot(s[..|s| - 1])
      case None => None
      case Some(e) => Some(e + [s[|s| - 1]])
  }

  /** An extension worth keeping when a name is cut. */
  function Extension(s: string): Option<string> {
    match AfterLastDot(s)
    case None => None
    case Some(e) => if e != "" && |Utf8(e)| <= MAX_EXTENSION then Some(e) else None
  }

  /** The longest prefix of at most `keep` bytes. */
  function TakeBytes(s: string, keep: nat): string {
    if |Utf8(s)| <= keep || s == "" then s else TakeBytes(s[..|s| - 1], keep)
  }

  function Truncated(s: string): string {
    if |Utf8(s)| <= MAX_BYTES then s else
      match Extension(s)
      case None => TakeBytes(s, MAX_BYTES)
      case Some(e) => TakeBytes(s, MAX_BYTES - |Utf8(e)| - 1) + "." + e
  }

  function SafeFileName(nfc: string -> string, raw: string): string {
    if Base(nfc, raw) == "" then "unnamed" else Truncated(Marked(Base(nfc, raw)))
  }

  // ----- Bytes and prefixes -----

  lemma Utf8Snoc(s: string, c: char)
    ensures |Utf8(s + [c])| == |Utf8(s)| + |Utf8Char(c)|
  {
    Utf8Concat(s, [c]);
    assert [c][1..] == "" && Utf8([c]) == Utf8Char(c) + [];
  }

  lemma Utf8Take(s: string, i: nat)
    requires i < |s|
    ensures |Utf8(s[..i + 1])| == |Utf8(s[..i])| + |Utf8Char(s[i])|
  {
    assert s[..i + 1] == s[..i] + [s[i]];
    Utf8Snoc(s[..i], s[i]);
  }

  lemma {:induction false} Utf8Size(s: string)
    ensures |s| <= |Utf8(s)| <= 4 * |s|
  {
    if s != "" { Utf8Size(s[1..]); }
  }

  lemma Utf8PrefixShorter(s: string, i: nat)
    requires i <= |s|
    ensures |Utf8(s[..i])| <= |Utf8(s)|
  {
    Utf8Concat(s[..i], s[i..]);
    assert s[..i] + s[i..] == s;
  }

  /** The prefix is the longest: one more character would not fit. */
  lemma {:induction false} TakeBytesLongest(s: string, keep: nat)
    ensures TakeBytes(s, keep) <= s && |Utf8(TakeBytes(s, keep))| <= keep
    ensures var n := |TakeBytes(s, keep)|; n < |s| ==> |Utf8(s[..n + 1])| > keep
  {
    if |Utf8(s)| > keep && s != "" {
      var init := s[..|s| - 1];
      TakeBytesLongest(init, keep);
      var n := |TakeBytes(init, keep)|;
      if n < |init| { assert s[..n + 1] == init[..n + 1]; } else { assert s[..n + 1] == s; }
    }
  }

  lemma TakeBytesIs(s: string, keep: nat, i: nat)
    requires i <= |s| && |Utf8(s[..i])| <= keep
    requires i < |s| ==> |Utf8(s[..i + 1])| > keep
    ensures TakeBytes(s, keep) == s[..i]
  {
    TakeBytesLongest(s, keep);
    var n := |TakeBytes(s, keep)|;
    assert TakeBytes(s, keep) == s[..n];
    if n < i {
      assert s[..i][..n + 1] == s[..n + 1];
      Utf8PrefixShorter(s[..i], n + 1);
    } else if i < n {
      assert s[..n][..i + 1] == s[..i + 1];
      Utf8PrefixShorter(s[..n], i + 1);
    }
  }

  /** A name that does not fit is cut late enough to keep forty characters or more. */
  lemma TakeBytesKeepsForty(s: string, keep: nat)
    requires |Utf8(s)| > keep >= 163
    ensures |s| >= |TakeBytes(s, keep)| >= 40
    ensures TakeBytes(s, keep) <= s && |Utf8(TakeBytes(s, keep))| <= keep
  {
    TakeBytesLongest(s, keep);
    var n := |TakeBytes(s, keep)|;
    assert s[..n] == TakeBytes(s, keep) && s[..|s|] == s;
    Utf8Size(s[..n + 1]);
  }

  // ----- The sanitiser's loops -----

  lemma NoBytes()
    ensures Utf8("") == []
  {
  }

  method TruncateKeepingExtension(name: string) returns (r: string)
    ensures r == Truncated(name)
  {
    NoBytes();
    hide Utf8, AfterLastDot, TakeBytes;
    if |Utf8(name)| <= MAX_BYTES { return name; }
    var ext := Extension(name);
    var keep := if ext.Some? then MAX_BYTES - (|Utf8(ext.value)| + 1) else MAX_BYTES;
    var stem := "";
    var i := 0;
    while i < |name|
      invariant 0 <= i <= |name| && stem == name[..i] && |Utf8(stem)| <= keep
    {
      Utf8Take(name, i);
      if |Utf8(stem)| + |Utf8Char(name[i])| > keep { break; }
      stem := stem + [name[i]];
      i := i + 1;
    }
    TakeBytesIs(name, keep, i);
    r := if ext.Some? then stem + "." + ext.value else stem;
  }

  method Sanitise(nfc: string -> string, raw: string) returns (r: string)
    ensures r == SafeFileName(nfc, raw)
  {
    var cleaned := Cleaned(TrimStart(Basename(nfc(raw))));
    while cleaned != "" && IsTail(cleaned[|cleaned| - 1])
      invariant TrimTail(cleaned) == Base(nfc, raw)
      decreases |cleaned|
    {
      cleaned := cleaned[..|cleaned| - 1];
    }
    if cleaned == "" || cleaned == "." || cleaned == ".." { return "unnamed"; }
    if Reserved(cleaned) { cleaned := cleaned + "_"; }
    r := TruncateKeepingExtension(cleaned);
  }

  // ----- What a sanitised name is -----

  predicate Clean(s: string) {
    forall i | 0 <= i < |s| :: !Forbidden(s[i])
  }

  predicate EndsWell(s: string) {
    s != "" && !IsTail(s[|s| - 1])
  }

  lemma {:induction false} CleanedIsClean(s: string)
    ensures Clean(Cleaned(s)) && |Cleaned(s)| == |s|
    ensures Clean(s) ==> Cleaned(s) == s
    ensures s != "" && !IsWhite(s[0]) ==> !IsWhite(Cleaned(s)[0])
  {
    if s != "" { CleanedIsClean(s[..|s| - 1]); }
  }

  lemma {:induction false} TrimTailEndsWell(s: string)
    ensures TrimTail(s) <= s && (TrimTail(s) == "" || EndsWell(TrimTail(s)))
    ensures TrimTail(s) != s ==> s != "" && IsTail(s[|s| - 1])
  {
    if s != "" && IsTail(s[|s| - 1]) { TrimTailEndsWell(s[..|s| - 1]); }
  }

  lemma {:induction false} TrimStartDrops(s: string)
    ensures TrimStart(s) == "" || !IsWhite(TrimStart(s)[0])
    ensures s == "" || !IsWhite(s[0]) ==> TrimStart(s) == s
  {
    if s != "" && IsWhite(s[0]) { TrimStartDrops(s[1..]); }
  }

  lemma BaseIsClean(nfc: string -> string, raw: string)
    ensures Clean(Base(nfc, raw))
    ensures Base(nfc, raw) != "" ==> EndsWell(Base(nfc, raw)) && !IsWhite(Base(nfc, raw)[0])
  {
    var s := TrimStart(Basename(nfc(raw)));
    TrimStartDrops(Basename(nfc(raw)));
    CleanedIsClean(s);
    TrimTailEndsWell(Cleaned(s));
  }

  lemma {:induction false} ExtensionIsSuffix(s: string)
    ensures match AfterLastDot(s)
            case None => true
            case Some(e) => |e| < |s| && s[|s| - |e|..] == e && s[|s| - |e| - 1] == '.' && '.' !in e
  {
    if s != "" { ExtensionIsSuffix(s[..|s| - 1]); }
  }

  lemma JoinedBytes(q: string, e: string)
    ensures |Utf8(q + "." + e)| == |Utf8(q)| + 1 + |Utf8(e)|
  {
    Utf8Snoc(q, '.');
    Utf8Concat(q + ".", e);
    assert q + "." == q + ['.'];
  }

  /** A cut name begins as the whole one does, fits, and keeps a short extension at its end. */
  lemma CutShape(s: string)
    requires |Utf8(s)| > MAX_BYTES
    ensures |Utf8(Truncated(s))| <= MAX_BYTES
    ensures |s| >= 40 && |Truncated(s)| >= 40 && Truncated(s)[..40] == s[..40]
    ensures Clean(s) ==> Clean(Truncated(s))
    ensures Extension(s).Some? && EndsWell(s) ==> EndsWell(Truncated(s))
  {
    hide Forbidden, Utf8, TakeBytes, AfterLastDot, IsTail;
    match Extension(s)
    case None => TakeBytesKeepsForty(s, MAX_BYTES);
    case Some(e) =>
      var keep := MAX_BYTES - |Utf8(e)| - 1;
      var q := TakeBytes(s, keep);
      TakeBytesKeepsForty(s, keep);
      JoinedBytes(q, e);
      ExtensionIsSuffix(s);
      hide AfterLastDot;
      assert forall i | 0 <= i < |e| :: e[i] == s[|s| - |e| + i];
      CleanJoin(s, q, e);
  }

  lemma CleanJoin(s: string, q: string, e: string)
    requires q <= s && |e| <= |s| && s[|s| - |e|..] == e
    ensures Clean(s) ==> Clean(q + "." + e)
  {
    hide Forbidden;
    var r := q + "." + e;
    assert !Forbidden('.') by { DotAllowed(); }
    assert forall i | 0 <= i < |r| :: r[i] == if i < |q| then s[i] else if i == |q| then '.' else s[|s| - |r| + i];
  }

  lemma DotAllowed()
    ensures !Forbidden('.')
  {
  }

  /** Whatever a peer calls a file: the name written is not empty, at most 200 bytes, free of
      separators, control and forbidden characters, and neither of the two directory names. */
  lemma SafeNameShape(nfc: string -> string, raw: string)
    ensures var r := SafeFileName(nfc, raw);
            r != "" && |Utf8(r)| <= 200 && Clean(r) && r != "." && r != ".." && !IsWhite(r[0])
  {
    var b := Base(nfc, raw);
    BaseIsClean(nfc, raw);
    hide Base, Marked, Truncated, Forbidden, IsWhite, Utf8;
    if b == "" {
      DefaultName();
    } else {
      MarkedShape(b);
      TruncatedShape(Marked(b));
    }
  }

  lemma DefaultName()
    ensures |Utf8("unnamed")| <= MAX_BYTES && Clean("unnamed") && !IsWhite("unnamed"[0])
  {
    Utf8Size("unnamed");
  }

  lemma MarkedShape(b: string)
    requires Clean(b) && EndsWell(b) && !IsWhite(b[0])
    ensures Clean(Marked(b)) && EndsWell(Marked(b)) && !IsWhite(Marked(b)[0])
  {
    hide Reserved;
    assert Marked(b)[0] == b[0];
  }

  lemma TruncatedShape(m: string)
    requires Clean(m) && EndsWell(m) && !IsWhite(m[0])
    ensures var r := Truncated(m);
            r != "" && |Utf8(r)| <= MAX_BYTES && Clean(r) && r != "." && r != ".." && !IsWhite(r[0])
  {
    hide Forbidden, IsWhite, Extension, TakeBytes;
    if |Utf8(m)| > MAX_BYTES {
      CutShape(m);
      assert Truncated(m)[..40][0] == m[..40][0];
    }
  }

  // ----- The parts of a name -----

  /** What may not stand in a name, character by character. */
  predicate IsForbidden(c: char) {
    || c as int < 0x20 || 0x7F <= c as int < 0xA0
    || c == '/' || c == '\\' || c == '<' || c == '>' || c == ':' || c == '"' || c == '|' || c == '?' || c == '*'
  }

  /** What is written of a received name, once normalised: only what follows the last separator, of that
      neither leading white space nor trailing dots and spaces, and an underscore for every forbidden
      character. */
  lemma NameFromParts(nfc: string -> string, raw: string, dir: string, white: string, core: string, tail: string)
    requires nfc(raw) == dir + white + core + tail
    requires dir != "" ==> dir[|dir| - 1] == '/' || dir[|dir| - 1] == '\\'
    requires forall c | c in white + core + tail :: c != '/' && c != '\\'
    requires forall c | c in white :: IsWhite(c)
    requires forall c | c in tail :: c == '.' || c == ' '
    requires core == "" ==> tail == "" || !IsWhite(tail[0])
    requires core != "" ==> !IsWhite(core[0]) && core[|core| - 1] != '.' && core[|core| - 1] != ' '
    ensures var b := Base(nfc, raw);
            |b| == |core| && forall i | 0 <= i < |b| :: b[i] == if IsForbidden(core[i]) then '_' else core[i]
  {
    hide IsWhite, Cleaned, TrimTail, Basename, TrimStart;
    assert dir + white + core + tail == dir + (white + core + tail);
    BasenameAfter(dir, white + core + tail);
    assert white + core + tail == white + (core + tail);
    TrimStartAfter(white, core + tail);
    CleanedConcat(core, tail);
    CleanedAt(core);
    CleanedAt(tail);
    assert forall i | 0 <= i < |tail| :: tail[i] in tail;
    assert Cleaned(tail) == tail;
    TrimTailBefore(Cleaned(core), tail);
  }

  lemma {:induction false} BasenameAfter(dir: string, last: string)
    requires dir != "" ==> IsSeparator(dir[|dir| - 1])
    requires forall c | c in last :: !IsSeparator(c)
    ensures Basename(dir + last) == last
  {
    if last == "" {
      assert dir + last == dir;
    } else {
      var init, c := last[..|last| - 1], last[|last| - 1];
      assert c in last && forall x | x in init :: x in last;
      assert (dir + last)[..|dir + last| - 1] == dir + init && (dir + last)[|dir + last| - 1] == c;
      BasenameAfter(dir, init);
    }
  }

  lemma {:induction false} TrimStartAfter(white: string, rest: string)
    requires (forall c | c in white :: IsWhite(c)) && (rest != "" ==> !IsWhite(rest[0]))
    ensures TrimStart(white + rest) == rest
  {
    hide IsWhite;
    if white == "" {
      assert white + rest == rest;
    } else {
      assert white[0] in white && (white + rest)[1..] == white[1..] + rest;
      TrimStartAfter(white[1..], rest);
    }
  }

  lemma {:induction false} CleanedAt(s: string)
    ensures |Cleaned(s)| == |s|
    ensures forall i | 0 <= i < |s| :: Cleaned(s)[i] == if IsForbidden(s[i]) then '_' else s[i]
  {
    if s != "" { CleanedAt(s[..|s| - 1]); }
  }

  lemma {:induction false} CleanedConcat(s: string, u: string)
    ensures Cleaned(s + u) == Cleaned(s) + Cleaned(u)
  {
    if u == "" {
      assert s + u == s;
    } else {
      assert (s + u)[..|s + u| - 1] == s + u[..|u| - 1] && (s + u)[|s + u| - 1] == u[|u| - 1];
      CleanedConcat(s, u[..|u| - 1]);
    }
  }

  lemma {:induction false} TrimTailBefore(s: string, tail: string)
    requires (forall c | c in tail :: c == '.' || c == ' ') && (s != "" ==> !IsTail(s[|s| - 1]))
    ensures TrimTail(s + tail) == s
  {
    if tail == "" {
      assert s + tail == s;
    } else {
      var init := tail[..|tail| - 1];
      assert tail[|tail| - 1] in tail && forall x | x in init :: x in tail;
      assert (s + tail)[..|s + tail| - 1] == s + init && (s + tail)[|s + tail| - 1] == tail[|tail| - 1];
      TrimTailBefore(s, init);
    }
  }

  /** A name of more than 200 bytes whose extension has 1 to 16 bytes keeps it: before it stands the longest
      beginning of the name that leaves the whole within 200 bytes. */
  lemma CutKeepsExtension(m: string, head: string, e: string)
    requires m == head + "." + e && '.' !in e && 1 <= |Utf8(e)| <= 16 && |Utf8(m)| > 200
    ensures exists n ::
              && 0 <= n < |m| && Truncated(m) == m[..n] + "." + e
              && |Utf8(m[..n] + "." + e)| <= 200 < |Utf8(m[..n + 1] + "." + e)|
  {
    AfterDot(head, e);
    hide AfterLastDot, Utf8;
    assert Extension(m) == Some(e);
    var keep := MAX_BYTES - |Utf8(e)| - 1;
    assert Truncated(m) == TakeBytes(m, keep) + "." + e;
    hide TakeBytes, Truncated, Extension;
    TakeBytesLongest(m, keep);
    var n := |TakeBytes(m, keep)|;
    assert TakeBytes(m, keep) == m[..n];
    assert m[..|m|] == m;
    JoinedBytes(m[..n], e);
    JoinedBytes(m[..n + 1], e);
  }

  /** Any other name of more than 200 bytes is cut to its longest beginning of 200 bytes. */
  lemma CutWithoutExtension(m: string, head: string, e: string)
    requires '.' !in e && |Utf8(m)| > 200
    requires m == e || (m == head + "." + e && (e == "" || |Utf8(e)| > 16))
    ensures exists n :: 0 <= n < |m| && Truncated(m) == m[..n] && |Utf8(m[..n])| <= 200 < |Utf8(m[..n + 1])|
  {
    if m == e { NoDot(e); } else { AfterDot(head, e); }
    hide AfterLastDot, Utf8;
    TakeBytesLongest(m, MAX_BYTES);
    var n := |TakeBytes(m, MAX_BYTES)|;
    assert TakeBytes(m, MAX_BYTES) == m[..n];
    assert m[..|m|] == m;
  }

  lemma {:induction false} AfterDot(head: string, e: string)
    requires '.' !in e
    ensures AfterLastDot(head + "." + e) == Some(e)
  {
    var s := head + "." + e;
    if e == "" {
      assert s[|s| - 1] == '.';
    } else {
      assert e[|e| - 1] in e && forall x | x in e[..|e| - 1] :: x in e;
      AfterDot(head, e[..|e| - 1]);
      assert s[..|s| - 1] == head + "." + e[..|e| - 1] && s[|s| - 1] == e[|e| - 1];
      assert e == e[..|e| - 1] + [e[|e| - 1]];
    }
  }

  lemma {:induction false} NoDot(s: string)
    requires '.' !in s
    ensures AfterLastDot(s) == None
  {
    if s != "" {
      assert s[|s| - 1] in s && forall x | x in s[..|s| - 1] :: x in s;
      NoDot(s[..|s| - 1]);
    }
  }

  /** The three steps after cleaning: nothing left is "unnamed", a device's name is marked, and a long one
      is cut. */
  lemma NameFromBase(nfc: string -> string, raw: string)
    ensures Base(nfc, raw) == "" ==> SafeFileName(nfc, raw) == "unnamed"
    ensures Base(nfc, raw) != "" && !Reserved(Base(nfc, raw)) ==>
              SafeFileName(nfc, raw) == Truncated(Base(nfc, raw))
    ensures Base(nfc, raw) != "" && Reserved(Base(nfc, raw)) ==>
              SafeFileName(nfc, raw) == Truncated(Base(nfc, raw) + "_")
    ensures forall s: string | |Utf8(s)| <= 200 :: Truncated(s) == s
  {
    hide Base, Reserved;
  }

  // ----- Reserved names -----

  /** A name is a device's when what precedes its first dot reads, in any case of its letters, CON, PRN, AUX
      or NUL, or COM or LPT with one digit other than nought. */
  lemma ReservedIff(s: string, stem: string)
    requires stem <= s && '.' !in stem && (|stem| < |s| ==> s[|stem|] == '.')
    ensures Reserved(s) <==>
            || (|stem| == 3 &&
                (Reads(stem, "CON") || Reads(stem, "PRN") || Reads(stem, "AUX") || Reads(stem, "NUL")))
            || (|stem| == 4 && (Reads(stem[..3], "COM") || Reads(stem[..3], "LPT")) && '1' <= stem[3] <= '9')
  {
    hide *;
    ReservedStem(s, stem);
    UpperReads(stem);
  }

  lemma ReservedStem(s: string, stem: string)
    requires stem <= s && '.' !in stem && (|stem| < |s| ==> s[|stem|] == '.')
    ensures Reserved(s) <==> Upper(stem) in RESERVED
  {
    hide Stem, Upper, RESERVED;
    assert forall i | 0 <= i < |stem| :: s[i] == stem[i] && stem[i] in stem;
    StemUnique(s, |stem|);
    assert s[..|stem|] == stem;
  }

  lemma UpperReads(stem: string)
    ensures Upper(stem) in RESERVED <==>
            || (|stem| == 3 &&
                (Reads(stem, "CON") || Reads(stem, "PRN") || Reads(stem, "AUX") || Reads(stem, "NUL")))
            || (|stem| == 4 && (Reads(stem[..3], "COM") || Reads(stem[..3], "LPT")) && '1' <= stem[3] <= '9')
  {
    hide *;
    DeviceNames(Upper(stem));
    ThreeLetters(stem);
    LettersAndDigit(stem);
  }

  lemma ThreeLetters(stem: string)
    ensures (Upper(stem) == "CON" || Upper(stem) == "PRN" || Upper(stem) == "AUX" || Upper(stem) == "NUL") <==>
            (|stem| == 3 && (Reads(stem, "CON") || Reads(stem, "PRN") || Reads(stem, "AUX") || Reads(stem, "NUL")))
  {
    hide *;
    Word(stem, "CON");
    Word(stem, "PRN");
    Word(stem, "AUX");
    Word(stem, "NUL");
  }

  lemma Word(stem: string, u: string)
    requires |u| == 3 && forall i | 0 <= i < |u| :: 'A' <= u[i] <= 'Z'
    ensures Upper(stem) == u <==> |stem| == 3 && Reads(stem, u)
  {
    ReadsIff(stem, u);
    hide Upper;
  }

  lemma LettersAndDigit(stem: string)
    ensures var u := Upper(stem);
            (|u| == 4 && (u[..3] == "COM" || u[..3] == "LPT") && '1' <= u[3] <= '9') <==>
            (|stem| == 4 && (Reads(stem[..3], "COM") || Reads(stem[..3], "LPT")) && '1' <= stem[3] <= '9')
  {
    UpperSize(stem);
    hide Reads, Upper;
    if |stem| == 4 {
      UpperSize(stem[..3]);
      assert Upper(stem)[..3] == Upper(stem[..3]);
      ReadsIff(stem[..3], "COM");
      ReadsIff(stem[..3], "LPT");
    }
  }

  lemma ReadsIff(s: string, u: string)
    requires forall i | 0 <= i < |u| :: 'A' <= u[i] <= 'Z'
    ensures Reads(s, u) <==> Upper(s) == u
  {
    UpperSize(s);
    hide Upper;
    assert Reads(s, u) ==> Upper(s) == u;
    if Upper(s) == u {
      forall i | 0 <= i < |s| ensures s[i] == u[i] || s[i] as int == u[i] as int + 0x20 {
        assert UpperChar(s[i]) == u[i];
      }
    }
  }

  /** `s` reads as the upper-case `u`, apart from the case of its letters. */
  predicate Reads(s: string, u: string) {
    |s| == |u| && forall i | 0 <= i < |s| :: s[i] == u[i] || ('A' <= u[i] <= 'Z' && s[i] as int == u[i] as int + 0x20)
  }

  lemma DeviceNames(u: string)
    ensures u in RESERVED <==>
            || u == "CON" || u == "PRN" || u == "AUX" || u == "NUL"
            || (|u| == 4 && (u[..3] == "COM" || u[..3] == "LPT") && '1' <= u[3] <= '9')
  {
    if |u| == 4 && '1' <= u[3] <= '9' && (u[..3] == "COM" || u[..3] == "LPT") {
      assert u == u[..3] + [u[3]];
      var k := (if u[..3] == "COM" then 3 else 12) + (u[3] as int - '0' as int);
      assert u == RESERVED[k];
    }
    assert u == "CON" ==> u == RESERVED[0];
    assert u == "PRN" ==> u == RESERVED[1];
    assert u == "AUX" ==> u == RESERVED[2];
    assert u == "NUL" ==> u == RESERVED[3];
  }

  lemma {:induction false} StemShape(s: string)
    ensures Stem(s) <= s && forall i | 0 <= i < |Stem(s)| :: s[i] != '.'
    ensures |Stem(s)| < |s| ==> s[|Stem(s)|] == '.'
  {
    if s != "" && s[0] != '.' { StemShape(s[1..]); }
  }

  lemma StemUnique(s: string, k: nat)
    requires k <= |s| && (forall i | 0 <= i < k :: s[i] != '.') && (k < |s| ==> s[k] == '.')
    ensures Stem(s) == s[..k]
  {
    StemShape(s);
  }

  lemma {:induction false} UpperSize(s: string)
    ensures |Upper(s)| == |s|
    ensures forall i | 0 <= i < |s| :: Upper(s)[i] == UpperChar(s[i])
  {
    if s != "" { UpperSize(s[1..]); }
  }

  lemma ReservedIsShort(s: string)
    ensures Reserved(s) ==> 3 <= |Stem(s)| <= 4 && Stem(s)[|Stem(s)| - 1] != '_'
  {
    UpperSize(Stem(s));
    hide Stem, Upper;
    if Reserved(s) { DeviceNameShape(Upper(Stem(s))); }
  }

  lemma DeviceNameShape(u: string)
    requires u in RESERVED
    ensures 3 <= |u| <= 4 && u[|u| - 1] != '_'
  {
  }

  /** Cutting a name leaves its stem reserved or not, as it was. */
  lemma CutKeepsReserved(s: string)
    requires |Utf8(s)| > MAX_BYTES
    ensures Reserved(Truncated(s)) <==> Reserved(s)
  {
    CutShape(s);
    Utf8Size(s);
    var r := Truncated(s);
    StemShape(s);
    StemShape(r);
    ReservedIsShort(s);
    ReservedIsShort(r);
    hide Truncated, Stem;
    assert forall i | 0 <= i < 40 :: r[i] == r[..40][i] == s[..40][i] == s[i];
    var k := |Stem(s)|;
    if k < 40 {
      StemUnique(r, k);
      assert r[..k] == s[..k] == Stem(s);
    } else {
      assert |Stem(r)| >= 40;
    }
  }

  lemma MarkedReserved(b: string)
    ensures Reserved(Marked(b)) <==> Reserved(b) && '.' in b
  {
    var m, k := Marked(b), |Stem(b)|;
    StemShape(b);
    ReservedIsShort(m);
    hide Stem, Upper;
    if Reserved(b) {
      if k < |b| {
        StemUnique(m, k);
        assert m[..k] == b[..k] == Stem(b) && b[k] in b;
      } else {
        StemUnique(m, |m|);
        assert m[..|m|] == m;
      }
    }
  }

  /** The underscore put after a device name is of use only when the name has no extension: the name
      written still belongs to a device exactly when the cleaned name did and contains a dot. */
  lemma ReservedNameSurvivesIff(nfc: string -> string, raw: string)
    ensures Reserved(SafeFileName(nfc, raw)) <==> Reserved(Base(nfc, raw)) && '.' in Base(nfc, raw)
  {
    var b := Base(nfc, raw);
    hide Base, Reserved, Marked, Utf8;
    ReservedIsShort(b);
    ReservedIsShort("unnamed");
    MarkedReserved(b);
    if |Utf8(Marked(b))| > MAX_BYTES { CutKeepsReserved(Marked(b)); }
    StemUnique("unnamed", 7);
    assert "unnamed"[..7] == "unnamed";
  }

  /** "CON.txt" is written as "CON.txt_", whose stem is still the console's. */
  lemma ConsoleKeepsItsName(nfc: string -> string)
    requires nfc("CON.txt") == "CON.txt"
    ensures SafeFileName(nfc, "CON.txt") == "CON.txt_" && Reserved("CON.txt_")
  {
    ConsoleIsReserved();
    ConsoleIsTidy();
    hide Reserved, Clean, IsWhite, TrimTail, Base, Truncated;
    TidyIsBase(nfc, "CON.txt");
    ShortNameFits("CON.txt_");
    assert "CON.txt" + "_" == "CON.txt_";
  }

  lemma ConsoleIsReserved()
    ensures Reserved("CON.txt") && Reserved("CON.txt_")
  {
    StemUnique("CON.txt", 3);
    StemUnique("CON.txt_", 3);
    assert "CON.txt"[..3] == "CON" && "CON.txt_"[..3] == "CON";
    UpperSize("CON");
    hide Stem, Upper;
    assert Upper("CON") == "CON" == RESERVED[0];
  }

  lemma ConsoleIsTidy()
    ensures Tidy("CON.txt") && TrimTail("CON.txt") == "CON.txt"
  {
  }

  lemma ShortNameFits(s: string)
    requires 4 * |s| <= MAX_BYTES
    ensures Truncated(s) == s
  {
    Utf8Size(s);
  }

  // ----- Trailing dots and spaces -----

  /** The last character before the cut at 200 bytes is a dot or a space. */
  predicate CutsAfterTail(m: string) {
    exists i :: 0 < i < |m| && |Utf8(m[..i])| <= MAX_BYTES < |Utf8(m[..i + 1])| && IsTail(m[i - 1])
  }

  lemma CutsAfterTailIff(m: string)
    requires |Utf8(m)| > MAX_BYTES
    ensures CutsAfterTail(m) <==> !EndsWell(TakeBytes(m, MAX_BYTES))
  {
    hide IsTail;
    TakeBytesLongest(m, MAX_BYTES);
    TakeBytesKeepsForty(m, MAX_BYTES);
    var n := |TakeBytes(m, MAX_BYTES)|;
    assert m[..n] == TakeBytes(m, MAX_BYTES) && m[..|m|] == m;
    if CutsAfterTail(m) {
      var i :| 0 < i < |m| && |Utf8(m[..i])| <= MAX_BYTES < |Utf8(m[..i + 1])| && IsTail(m[i - 1]);
      TakeBytesIs(m, MAX_BYTES, i);
    }
    if !EndsWell(TakeBytes(m, MAX_BYTES)) {
      assert 0 < n < |m| && |Utf8(m[..n])| <= MAX_BYTES < |Utf8(m[..n + 1])| && IsTail(m[n - 1]);
    }
  }

  /** A sanitised name ends in a dot or a space exactly when it was too long, had no short extension,
      and a dot or a space was the last character to fit. */
  lemma BadEndingIff(nfc: string -> string, raw: string)
    ensures var m := Marked(Base(nfc, raw));
            !EndsWell(SafeFileName(nfc, raw)) <==> |Utf8(m)| > MAX_BYTES && Extension(m).None? && CutsAfterTail(m)
  {
    var b := Base(nfc, raw);
    BaseIsClean(nfc, raw);
    hide Base, Reserved, TakeBytes, Extension, CutsAfterTail;
    var m := Marked(b);
    if b == "" {
      Utf8Size(m);
    } else if |Utf8(m)| > MAX_BYTES {
      CutShape(m);
      CutsAfterTailIff(m);
    }
  }

  // ----- Names that need nothing done -----

  lemma {:induction false} BasenameWhole(s: string)
    ensures (forall i | 0 <= i < |s| :: !IsSeparator(s[i])) ==> Basename(s) == s
  {
    if s != "" { BasenameWhole(s[..|s| - 1]); }
  }

  /** A name with nothing to clean. */
  predicate Tidy(s: string) {
    Clean(s) && EndsWell(s) && !IsWhite(s[0])
  }

  lemma TidyIsBase(nfc: string -> string, s: string)
    requires nfc(s) == s && Clean(s) && s != "" && !IsWhite(s[0])
    ensures Base(nfc, s) == TrimTail(s)
  {
    BasenameWhole(s);
    TrimStartDrops(s);
    CleanedIsClean(s);
  }

  /** The mark of a device name is lost again when the name fills all 200 bytes and has no short
      extension. */
  predicate MarkIsCutOff(s: string) {
    |Utf8(s)| == MAX_BYTES && Extension(s + "_").None?
  }

  /** A normalised name is left alone exactly when it is tidy, fits, and is no device's or would lose
      its mark again. */
  lemma UnchangedIff(nfc: string -> string, raw: string)
    requires nfc(raw) == raw
    ensures SafeFileName(nfc, raw) == raw <==>
            Tidy(raw) && |Utf8(raw)| <= MAX_BYTES && (Reserved(raw) ==> MarkIsCutOff(raw))
  {
    SafeNameShape(nfc, raw);
    TrimTailEndsWell(raw);
    hide SafeFileName, Reserved, Forbidden, IsWhite, MarkIsCutOff;
    if SafeFileName(nfc, raw) == raw || (Tidy(raw) && |Utf8(raw)| <= MAX_BYTES) {
      TidyIsBase(nfc, raw);
      FittingName(nfc, raw);
    }
  }

  /** What becomes of a clean name that fits. */
  lemma FittingName(nfc: string -> string, raw: string)
    requires Base(nfc, raw) == TrimTail(raw) && |Utf8(raw)| <= MAX_BYTES && raw != ""
    ensures SafeFileName(nfc, raw) == raw <==> EndsWell(raw) && (Reserved(raw) ==> MarkIsCutOff(raw))
  {
    hide Base, Reserved, Truncated, MarkIsCutOff;
    var b := TrimTail(raw);
    TrimTailEndsWell(raw);
    if b == raw {
      MarkedName(raw);
    } else if b != "" {
      TrimmedName(raw, b);
    }
  }

  lemma TrimmedName(raw: string, b: string)
    requires b < raw && |Utf8(raw)| <= MAX_BYTES && IsTail(raw[|raw| - 1])
    ensures Truncated(Marked(b)) != raw
  {
    hide Utf8, Reserved, Extension, TakeBytes;
    Utf8PrefixShorter(raw, |b| + 1);
    Utf8Take(raw, |b|);
    assert raw[..|b|] == b;
    Utf8Snoc(b, '_');
    assert b + "_" == b + ['_'];
  }

  lemma MarkedName(raw: string)
    requires |Utf8(raw)| <= MAX_BYTES
    ensures Truncated(Marked(raw)) == raw <==> (Reserved(raw) ==> MarkIsCutOff(raw))
  {
    hide Reserved, AfterLastDot, Utf8, TakeBytes;
    var m := raw + ['_'];
    assert raw + "_" == m;
    Utf8Snoc(raw, '_');
    if |Utf8(m)| > MAX_BYTES {
      assert m[..|raw|] == raw && m[..|raw| + 1] == m;
      TakeBytesIs(m, MAX_BYTES, |raw|);
      ExtensionIsSuffix(m);
      if Extension(m).Some? {
        var e := Extension(m).value;
        var q := TakeBytes(m, MAX_BYTES - |Utf8(e)| - 1);
        var r := q + "." + e;
        assert raw[|raw| - |e|] == m[|m| - |e| - 1] == '.';
        assert r[|r| - |e|] == e[0] && e[0] in e;
      }
    }
  }

  predicate Lower(s: string) {
    forall i | 0 <= i < |s| :: 'a' <= s[i] <= 'z'
  }

  /** Such a name: 199 plain characters, a dot, and more than sixteen after it. */
  lemma CutAfterDot(nfc: string -> string, a: string, z: string)
    requires |a| == 199 && |z| > MAX_EXTENSION && Lower(a) && Lower(z)
    requires nfc(a + "." + z) == a + "." + z
    ensures SafeFileName(nfc, a + "." + z) == a + "."
  {
    var s := a + "." + z;
    DottedIsTidy(a, z);
    DottedIsCut(a, z);
    hide Base, Reserved, Clean, IsWhite, Truncated, Utf8, SafeFileName, Marked;
    NameFromBase(nfc, s);
    TidyIsBase(nfc, s);
    StemUnique(s, 199);
    ReservedIsShort(s);
  }

  lemma DottedIsTidy(a: string, z: string)
    requires a != "" && z != "" && Lower(a) && Lower(z)
    ensures Tidy(a + "." + z) && TrimTail(a + "." + z) == a + "." + z
    ensures forall i | 0 <= i < |a| :: (a + "." + z)[i] != '.'
  {
    var s := a + "." + z;
    assert forall i | 0 <= i < |s| :: s[i] == if i < |a| then a[i] else if i == |a| then '.' else z[i - |a| - 1];
  }

  lemma DottedIsCut(a: string, z: string)
    requires |a| == 199 && |z| > MAX_EXTENSION && Lower(a) && Lower(z)
    ensures Truncated(a + "." + z) == a + "."
  {
    var s, head := a + "." + z, a + ".";
    PlainBytes(a);
    PlainBytes(z);
    JoinedBytes(a, z);
    DotThenPlain(a, z);
    hide Utf8;
    Utf8Snoc(a, '.');
    assert head == a + ['.'] && s[..200] == head;
    Utf8Take(s, 200);
    TakeBytesIs(s, MAX_BYTES, 200);
  }

  lemma {:induction false} PlainBytes(s: string)
    requires Lower(s)
    ensures |Utf8(s)| == |s|
  {
    if s != "" { PlainBytes(s[1..]); }
  }

  lemma {:induction false} DotThenPlain(a: string, z: string)
    requires Lower(z)
    ensures AfterLastDot(a + "." + z) == Some(z)
  {
    var s := a + "." + z;
    if z == "" {
      assert s[|s| - 1] == '.';
    } else {
      DotThenPlain(a, z[..|z| - 1]);
      assert s[..|s| - 1] == a + "." + z[..|z| - 1] && s[|s| - 1] == z[|z| - 1];
      assert z == z[..|z| - 1] + [z[|z| - 1]];
    }
  }
}
