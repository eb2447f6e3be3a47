// Two string transforms: the Content-Disposition header built from a hostile file
// name, and the log scrubber that hides link secrets.

module HeaderText {
  import opened Splitting

  type Byte = b: int | 0 <= b < 256

  // ---- rfc5987Escape ----

  /** attr-char of section 3.2.1 of RFC 5987. */
  predicate AttrChar(c: int) {
    || ('A' as int <= c <= 'Z' as int) || ('a' as int <= c <= 'z' as int) || ('0' as int <= c <= '9' as int)
    || c == '!' as int || c == '#' as int || c == '$' as int || c == '&' as int || c == '+' as int
    || c == '-' as int || c == '.' as int || c == '^' as int || c == '_' as int || c == '`' as int
    || c == '|' as int || c == '~' as int
  }

  const HEX: string := "0123456789ABCDEF"

  function EscapeByte(c: Byte): string {
    if AttrChar(c) then [c as char] else ['%', HEX[c / 16], HEX[c % 16]]
  }

  /** Letters, digits and twelve signs stand for themselves; every other byte becomes a
      percent sign and two upper-case hex digits. */
  lemma EscapeByteExactly(c: Byte)
    ensures var ch := c as char;
            var hi, lo := c / 16, c % 16;
            EscapeByte(c) ==
              if 'A' <= ch <= 'Z' || 'a' <= ch <= 'z' || '0' <= ch <= '9' || ch in "!#$&+-.^_`|~" then [ch]
              else ['%', if hi < 10 then '0' + hi as char else 'A' + (hi - 10) as char,
                    if lo < 10 then '0' + lo as char else 'A' + (lo - 10) as char]
  {
    HexIsUpper(c / 16);
    HexIsUpper(c % 16);
  }

  lemma HexIsUpper(d: int)
    requires 0 <= d < 16
    ensures HEX[d] == if d < 10 then '0' + d as char else 'A' + (d - 10) as char
  {
  }

  function Escape(s: seq<Byte>): string { if s == [] then "" else EscapeByte(s[0]) + Escape(s[1..]) }

  lemma Regroup3(a: string, b: string, c: string)
    ensures a + (b + c) == (a + b) + c
  {
  }

  lemma {:induction false} EscapeAppend(a: seq<Byte>, c: Byte)
    ensures Escape(a + [c]) == Escape(a) + EscapeByte(c)
  {
    if a == [] {
      assert a + [c] == [c] && [c][1..] == [];
    } else {
      assert (a + [c])[1..] == a[1..] + [c];
      EscapeAppend(a[1..], c);
      Regroup3(EscapeByte(a[0]), Escape(a[1..]), EscapeByte(c));
    }
  }

  method Rfc5987Escape(s: seq<Byte>) returns (b: string)
    ensures b == Escape(s)
  {
    b := "";
    for i := 0 to |s|
      invariant b == Escape(s[..i])
    {
      var c := s[i];
      assert s[..i + 1] == s[..i] + [c];
      EscapeAppend(s[..i], c);
      if AttrChar(c) {
        b := b + [c as char];
      } else {
        b := b + ['%'];
        b := b + [HEX[c / 16]];
        b := b + [HEX[c % 16]];
      }
    }
    assert s[..|s|] == s;
  }

  datatype Decoded = Malformed | Bytes(s: seq<Byte>)

  function HexValue(c: char): int {
    if '0' <= c <= '9' then c as int - '0' as int
    else if 'A' <= c <= 'F' then c as int - 'A' as int + 10
    else if 'a' <= c <= 'f' then c as int - 'a' as int + 10
    else -1
  }

  /** The value-chars of section 3.2.1 of RFC 5987: percent-encoded octets and
      attr-chars, and nothing else. */
  function Unescape(t: string): Decoded {
    if t == "" then Bytes([])
    else if t[0] == '%' then
      if |t| < 3 || HexValue(t[1]) < 0 || HexValue(t[2]) < 0 then Malformed
      else
        match Unescape(t[3..])
        case Malformed => Malformed
        case Bytes(s) => Bytes([16 * HexValue(t[1]) + HexValue(t[2])] + s)
    else if AttrChar(t[0] as int) then
      match Unescape(t[1..])
      case Malformed => Malformed
      case Bytes(s) => Bytes([t[0] as int] + s)
    else Malformed
  }

  lemma HexDigits(c: Byte)
    ensures HexValue(HEX[c / 16]) == c / 16 && HexValue(HEX[c % 16]) == c % 16
  {
  }

  lemma UnescapeByte(c: Byte, t: string, s: seq<Byte>)
    requires Unescape(t) == Bytes(s)
    ensures Unescape(EscapeByte(c) + t) == Bytes([c] + s)
  {
    var u := EscapeByte(c) + t;
    if AttrChar(c) {
      assert u[0] == c as char && u[1..] == t;
    } else {
      HexDigits(c);
      assert u[..3] == EscapeByte(c) && u[3..] == t;
    }
  }

  /** Every byte string survives escaping, and what is written is well-formed: only
      attr-chars and percent-encoded octets. */
  lemma {:induction false} UnescapeOfEscape(s: seq<Byte>)
    ensures Unescape(Escape(s)) == Bytes(s)
  {
    if s != [] {
      UnescapeOfEscape(s[1..]);
      UnescapeByte(s[0], Escape(s[1..]), s[1..]);
      assert s == [s[0]] + s[1..];
    }
  }

  // ---- asciiFilename ----

  predicate Cont(c: Byte) { 0x80 <= c <= 0xBF }

  /** How many bytes a range loop over a Go string consumes for the next rune: the
      well-formed UTF-8 sequences, or one byte of anything else. */
  function RuneLen(s: seq<Byte>): (n: nat)
    requires s != []
    ensures 1 <= n <= |s|
    ensures n > 1 ==> s[0] >= 0x80
  {
    var c := s[0];
    if 0xC2 <= c <= 0xDF && |s| >= 2 && Cont(s[1]) then 2
    else if 0xE0 <= c <= 0xEF && |s| >= 3 && Cont(s[1]) && Cont(s[2])
            && (c == 0xE0 ==> s[1] >= 0xA0) && (c == 0xED ==> s[1] <= 0x9F) then 3
    else if 0xF0 <= c <= 0xF4 && |s| >= 4 && Cont(s[1]) && Cont(s[2]) && Cont(s[3])
            && (c == 0xF0 ==> s[1] >= 0x90) && (c == 0xF4 ==> s[1] <= 0x8F) then 4
    else 1
  }

  /** A byte that stands for itself in a quoted string. */
  predicate Plain(c: int) { 0x20 <= c <= 0x7e && c != '"' as int && c != '\\' as int }

  /** A multi-byte or ill-formed rune is above 0x7e, so only its first byte decides. */
  function Clean(s: seq<Byte>): string
    decreases |s|
  {
    if s == [] then "" else [if Plain(s[0]) then s[0] as char else '_'] + Clean(s[RuneLen(s)..])
  }

  /** b is the cleaned name up to the bytes that are left. */
  predicate CleanedUpTo(name: seq<Byte>, b: string, left: seq<Byte>) { b + Clean(left) == Clean(name) }

  lemma CleanStep(name: seq<Byte>, b: string, left: seq<Byte>)
    requires left != [] && CleanedUpTo(name, b, left)
    ensures CleanedUpTo(name, b + [if Plain(left[0]) then left[0] as char else '_'], left[RuneLen(left)..])
  {
  }

  method AsciiFilename(name: seq<Byte>) returns (b: string)
    ensures b == FilenameOf(name)
  {
    b := "";
    var i := 0;
    while i < |name|
      invariant 0 <= i <= |name|
      invariant CleanedUpTo(name, b, name[i..])
    {
      var n := RuneLen(name[i..]);
      CleanStep(name, b, name[i..]);
      assert name[i..][n..] == name[i + n..];
      b := b + [if Plain(name[i]) then name[i] as char else '_'];
      i := i + n;
    }
    assert name[|name|..] == [] && b + "" == b;
    CleanFacts(name);
    if |b| == 0 {
      b := "download";
    }
  }

  function FilenameOf(name: seq<Byte>): string { if name == [] then "download" else Clean(name) }

  lemma {:induction false} CleanFacts(s: seq<Byte>)
    ensures forall c :: c in Clean(s) ==> Plain(c as int)
    ensures |Clean(s)| <= |s| && (Clean(s) == "" <==> s == [])
    decreases |s|
  {
    if s != [] { CleanFacts(s[RuneLen(s)..]); }
  }

  function AsText(name: seq<Byte>): string { seq(|name|, i requires 0 <= i < |name| => name[i] as char) }

  lemma {:induction false} CleanOfPlain(name: seq<Byte>)
    requires forall i :: 0 <= i < |name| ==> Plain(name[i])
    ensures Clean(name) == AsText(name)
  {
    if name != [] {
      assert RuneLen(name) == 1;
      CleanOfPlain(name[1..]);
      assert AsText(name) == [name[0] as char] + AsText(name[1..]);
    }
  }

  // ---- One underscore for each rune ----

  predicate Scalar(cp: int) { 0 <= cp <= 0x10FFFF && !(0xD800 <= cp <= 0xDFFF) }

  /** UTF-8, section 3 of RFC 3629. */
  function Utf8(cp: int): (s: seq<Byte>)
    requires Scalar(cp)
    ensures s != []
  {
    if cp < 0x80 then [cp]
    else if cp < 0x800 then [0xC0 + cp / 64, 0x80 + cp % 64]
    else if cp < 0x1_0000 then [0xE0 + cp / 4096, 0x80 + cp / 64 % 64, 0x80 + cp % 64]
    else [0xF0 + cp / 262_144, 0x80 + cp / 4096 % 64, 0x80 + cp / 64 % 64, 0x80 + cp % 64]
  }

  /** A rune that is encoded well is taken as a whole. */
  lemma RuneOfUtf8(cp: int, rest: seq<Byte>)
    requires Scalar(cp)
    ensures RuneLen(Utf8(cp) + rest) == |Utf8(cp)|
    ensures (Utf8(cp) + rest)[0] == cp || (cp >= 0x80 && (Utf8(cp) + rest)[0] >= 0x80)
  {
    if 0x800 <= cp < 0x1_0000 {
      RuneOfThree(cp, rest);
    } else if cp >= 0x1_0000 {
      RuneOfFour(cp, rest);
    }
  }

  lemma RuneOfThree(cp: int, rest: seq<Byte>)
    requires Scalar(cp) && 0x800 <= cp < 0x1_0000
    ensures RuneLen(Utf8(cp) + rest) == 3
  {
    var s := Utf8(cp) + rest;
    assert cp == cp / 4096 * 4096 + cp / 64 % 64 * 64 + cp % 64;
    assert s[0] == 0xE0 + cp / 4096 && s[1] == 0x80 + cp / 64 % 64 && s[2] == 0x80 + cp % 64;
  }

  lemma RuneOfFour(cp: int, rest: seq<Byte>)
    requires Scalar(cp) && cp >= 0x1_0000
    ensures RuneLen(Utf8(cp) + rest) == 4
  {
    var a, b := cp / 262_144, cp / 4096 % 64;
    assert cp / 4096 == a * 64 + b;
    FourIsRune(a, b, cp / 64 % 64, cp % 64, rest);
  }

  lemma FourIsRune(a: int, b: int, c: int, d: int, rest: seq<Byte>)
    requires 0 <= a <= 4 && 0 <= b < 64 && 0 <= c < 64 && 0 <= d < 64 && 16 <= a * 64 + b < 272
    ensures RuneLen([0xF0 + a, 0x80 + b, 0x80 + c, 0x80 + d] + rest) == 4
  {
  }

  /** What is taken as more than one byte is a rune that is encoded well, so every byte
      of anything else is taken alone. */
  lemma RuneIsUtf8(s: seq<Byte>)
    requires s != [] && RuneLen(s) > 1
    ensures exists cp :: Scalar(cp) && cp >= 0x80 && Utf8(cp) == s[..RuneLen(s)]
  {
    var a: int := s[0];
    var b: int := s[1];
    if RuneLen(s) == 2 {
      var cp := (a - 0xC0) * 64 + (b - 0x80);
      assert Scalar(cp) && Utf8(cp) == s[..2];
    } else if RuneLen(s) == 3 {
      var c: int := s[2];
      var cp := (a - 0xE0) * 4096 + (b - 0x80) * 64 + (c - 0x80);
      ThreeBytes(a - 0xE0, b - 0x80, c - 0x80);
      assert Scalar(cp) && Utf8(cp) == s[..3];
    } else {
      var c: int := s[2];
      var d: int := s[3];
      var cp := (a - 0xF0) * 262_144 + (b - 0x80) * 4096 + (c - 0x80) * 64 + (d - 0x80);
      FourBytes(a - 0xF0, b - 0x80, c - 0x80, d - 0x80);
      assert Scalar(cp) && Utf8(cp) == s[..4];
    }
  }

  lemma ThreeBytes(a: nat, b: nat, c: nat)
    requires b < 64 && c < 64
    ensures var cp := a * 4096 + b * 64 + c; cp / 4096 == a && cp / 64 % 64 == b && cp % 64 == c
  {
    var cp := a * 4096 + b * 64 + c;
    assert cp / 64 == a * 64 + b;
  }

  lemma FourBytes(a: nat, b: nat, c: nat, d: nat)
    requires b < 64 && c < 64 && d < 64
    ensures var cp := a * 262_144 + b * 4096 + c * 64 + d;
            cp / 262_144 == a && cp / 4096 % 64 == b && cp / 64 % 64 == c && cp % 64 == d
  {
    var cp := a * 262_144 + b * 4096 + c * 64 + d;
    assert cp / 64 == a * 4096 + b * 64 + c;
    assert cp / 4096 == a * 64 + b;
  }

  function EncodeAll(cps: seq<int>): seq<Byte>
    requires forall i :: 0 <= i < |cps| ==> Scalar(cps[i])
  {
    if cps == [] then [] else Utf8(cps[0]) + EncodeAll(cps[1..])
  }

  /** A file name in UTF-8: each printable ASCII character but quote and backslash stays,
      and each other character, however many bytes it has, becomes one underscore. */
  lemma {:induction false} CleanOfText(cps: seq<int>)
    requires forall i :: 0 <= i < |cps| ==> Scalar(cps[i])
    ensures |Clean(EncodeAll(cps))| == |cps|
    ensures forall i :: 0 <= i < |cps| ==>
              Clean(EncodeAll(cps))[i] ==
                if 0x20 <= cps[i] <= 0x7e && cps[i] != '"' as int && cps[i] != '\\' as int
                then cps[i] as char else '_'
  {
    if cps != [] {
      var s := EncodeAll(cps);
      RuneOfUtf8(cps[0], EncodeAll(cps[1..]));
      CleanOfText(cps[1..]);
      assert s[RuneLen(s)..] == EncodeAll(cps[1..]);
    }
  }

  /** The quoted file name is never empty and holds no quote, backslash or control
      character; a name made of harmless characters is kept as it is. */
  lemma FilenameIsSafe(name: seq<Byte>)
    ensures FilenameOf(name) != ""
    ensures forall c :: c in FilenameOf(name) ==> ' ' <= c <= '~' && c != '"' && c != '\\'
    ensures name == [] ==> FilenameOf(name) == "download"
    ensures name != [] && (forall i :: 0 <= i < |name| ==> Plain(name[i])) ==> FilenameOf(name) == AsText(name)
  {
    CleanFacts(name);
    if forall i :: 0 <= i < |name| ==> Plain(name[i]) { CleanOfPlain(name); }
  }

  // ---- contentDisposition ----

  const NAME: string := " filename=\""
  const EXT: string := "; filename*=UTF-8''"

  function ContentDisposition(disp: string, name: seq<Byte>): string {
    disp + ";" + NAME + FilenameOf(name) + "\"" + EXT + Escape(name)
  }

  /** The header as it is sent. */
  lemma HeaderExactly(disp: string, name: seq<Byte>)
    ensures ContentDisposition(disp, name)
         == disp + "; filename=\"" + FilenameOf(name) + "\"; filename*=UTF-8''" + Escape(name)
  {
    assert ";" + NAME == "; filename=\"" && "\"" + EXT == "\"; filename*=UTF-8''";
    Pieces(disp, ";", NAME, FilenameOf(name), "\"", EXT, Escape(name));
  }

  lemma Pieces(a: string, b: string, c: string, d: string, e: string, f: string, g: string)
    ensures a + b + c + d + e + f + g == a + (b + c) + d + (e + f) + g
  {
  }

  datatype Disposition = Bad | Disposition(kind: string, filename: string, name: seq<Byte>)

  /** Reading the header back: the type up to the first semicolon, the quoted filename
      up to the next quote, and the extended filename. */
  function ParseDisposition(h: string): Disposition {
    var kind := SplitFirst(h, ';');
    if |kind| != 2 || !HasPrefix(kind[1], NAME) then Bad
    else
      var quoted := SplitFirst(kind[1][|NAME|..], '"');
      if |quoted| != 2 || !HasPrefix(quoted[1], EXT) then Bad
      else
        match Unescape(quoted[1][|EXT|..])
        case Malformed => Bad
        case Bytes(name) => Disposition(kind[0], quoted[0], name)
  }

  lemma AfterPrefix(p: string, t: string)
    ensures HasPrefix(p + t, p) && (p + t)[|p|..] == t
  {
  }

  /** No file name can break out of its parameter: reading the header gives back the
      disposition type and both forms of the name. */
  lemma DispositionRoundTrip(disp: string, name: seq<Byte>)
    requires ';' !in disp
    ensures ParseDisposition(ContentDisposition(disp, name)) == Disposition(disp, FilenameOf(name), name)
  {
    var file := FilenameOf(name);
    FilenameIsSafe(name);
    UnescapeOfEscape(name);
    ReadBack(disp, file, Escape(name), name);
    Regroup(disp, [';'], NAME, file, ['"'], EXT, Escape(name));
  }

  lemma Regroup(a: string, b: string, c: string, d: string, e: string, f: string, g: string)
    ensures a + b + c + d + e + f + g == a + b + (c + (d + e + (f + g)))
  {
  }

  lemma ReadBack(disp: string, file: string, escaped: string, name: seq<Byte>)
    requires ';' !in disp && '"' !in file && Unescape(escaped) == Bytes(name)
    ensures ParseDisposition(disp + [';'] + (NAME + (file + ['"'] + (EXT + escaped)))) == Disposition(disp, file, name)
  {
    var quoted := file + ['"'] + (EXT + escaped);
    SplitAtFirst(disp, NAME + quoted, ';');
    AfterPrefix(NAME, quoted);
    SplitAtFirst(file, EXT + escaped, '"');
    AfterPrefix(EXT, escaped);
  }
}

module PathScrub {
  import opened Splitting

  const MASK: string := "***"

  predicate Marker(seg: string) { seg == "p" || seg == "f" }

  /** Segment j is masked when it stands two places after a marker (not at index 0)
      that is still there, and unchanged otherwise. */
  predicate ScrubbedAt(segs: seq<string>, out: seq<string>, j: nat)
    requires j < |segs| == |out|
  {
    out[j] == if j >= 3 && Marker(out[j - 2]) then MASK else segs[j]
  }

  predicate Scrubbed(segs: seq<string>, out: seq<string>) {
    |out| == |segs| && forall j :: 0 <= j < |segs| ==> ScrubbedAt(segs, out, j)
  }

  /** The loop of scrubSecret on the split path. */
  method ScrubInPlace(segs: array<string>)
    modifies segs
    ensures Scrubbed(old(segs[..]), segs[..])
  {
    ghost var was := segs[..];
    var i := 1;
    while i < segs.Length - 1
      invariant 1 <= i && (i <= segs.Length || i == 1)
      invariant forall j :: 0 <= j < segs.Length && j < i + 2 ==> ScrubbedAt(was, segs[..], j)
      invariant forall j :: i + 2 <= j < segs.Length ==> segs[j] == was[j]
    {
      ghost var before := segs[..];
      if segs[i] == "p" || segs[i] == "f" {
        if i + 2 < segs.Length {
          segs[i + 2] := "***";
        }
      }
      forall j | 0 <= j < segs.Length && j < i + 3 ensures ScrubbedAt(was, segs[..], j) {
        assert j < i + 2 ==> ScrubbedAt(was, before, j);
      }
      i := i + 1;
    }
  }

  /** The scrubbed segments, left to right. */
  function Scrub(segs: seq<string>): (out: seq<string>)
    ensures |out| == |segs|
  {
    if segs == [] then []
    else
      var last := |segs| - 1;
      var front := Scrub(segs[..last]);
      front + [if last >= 3 && Marker(front[last - 2]) then MASK else segs[last]]
  }

  lemma {:induction false} ScrubIsScrubbed(segs: seq<string>)
    ensures Scrubbed(segs, Scrub(segs))
  {
    if segs != [] {
      var last := |segs| - 1;
      ScrubIsScrubbed(segs[..last]);
      forall j | 0 <= j < |segs| ensures ScrubbedAt(segs, Scrub(segs), j) {
        assert j < last ==> ScrubbedAt(segs[..last], Scrub(segs[..last]), j);
      }
    }
  }

  lemma {:induction false} ScrubbedUnique(segs: seq<string>, out: seq<string>)
    requires Scrubbed(segs, out)
    ensures out == Scrub(segs)
  {
    if segs != [] {
      var last := |segs| - 1;
      var front := out[..last];
      forall j | 0 <= j < last ensures ScrubbedAt(segs[..last], front, j) {
        assert ScrubbedAt(segs, out, j);
      }
      ScrubbedUnique(segs[..last], front);
      assert ScrubbedAt(segs, out, last);
      assert out == front + [out[last]];
    }
  }

  method ScrubSecret(path: string) returns (r: string)
    ensures r == ScrubPath(path)
  {
    var parts := Split(path, '/');
    var segs := new string[|parts|](i requires 0 <= i < |parts| => parts[i]);
    assert segs[..] == parts;
    ScrubInPlace(segs);
    ScrubbedUnique(parts, segs[..]);
    r := Join(segs[..], '/');
  }

  function ScrubPath(path: string): string { Join(Scrub(Split(path, '/')), '/') }

  lemma SplitOfScrubPath(path: string)
    ensures Split(ScrubPath(path), '/') == Scrub(Split(path, '/'))
  {
    var parts := Split(path, '/');
    JoinOfSplit(path, '/');
    ScrubIsScrubbed(parts);
    var out := Scrub(parts);
    forall p | p in out ensures '/' !in p {
      var j :| 0 <= j < |out| && out[j] == p;
      assert ScrubbedAt(parts, out, j);
      assert parts[j] in parts;
    }
    SplitOfJoin(out, '/');
  }

  /** Through split and join: the number of segments is kept, a segment is masked
      exactly when it follows a remaining marker by two, and no other one changes. */
  lemma ScrubPathSegments(path: string)
    ensures var segs, out := Split(path, '/'), Split(ScrubPath(path), '/');
            && |out| == |segs|
            && forall j :: 0 <= j < |segs| ==>
                 if j >= 3 && (out[j - 2] == "p" || out[j - 2] == "f") then out[j] == "***" else out[j] == segs[j]
  {
    var segs, out := Split(path, '/'), Split(ScrubPath(path), '/');
    SplitOfScrubPath(path);
    ScrubIsScrubbed(segs);
    forall j | 0 <= j < |segs|
      ensures if j >= 3 && (out[j - 2] == "p" || out[j - 2] == "f") then out[j] == "***" else out[j] == segs[j]
    {
      assert ScrubbedAt(segs, out, j);
    }
  }

  lemma ScrubPathIdempotent(path: string)
    ensures ScrubPath(ScrubPath(path)) == ScrubPath(path)
  {
    SplitOfScrubPath(path);
    var out := Scrub(Split(path, '/'));
    ScrubIsScrubbed(Split(path, '/'));
    forall j | 0 <= j < |out| ensures ScrubbedAt(out, out, j) {
      assert ScrubbedAt(Split(path, '/'), out, j);
    }
    ScrubbedUnique(out, out);
  }

  lemma {:induction false} SplitConcat(a: string, b: string, sep: char)
    requires sep !in a
    ensures Split(a + [sep] + b, sep) == [a] + Split(b, sep)
  {
    var s := a + [sep] + b;
    if a == "" {
      assert s[1..] == b;
    } else {
      assert s[1..] == a[1..] + [sep] + b;
      SplitConcat(a[1..], b, sep);
      assert a == [a[0]] + a[1..];
    }
  }

  /** The path of a link or file route, with whatever follows the secret. */
  function Route(kind: string, id: string, rest: string): string { "/" + kind + "/" + id + "/" + rest }

  lemma RouteSegments(kind: string, id: string, rest: string)
    requires '/' !in kind && '/' !in id
    ensures Split(Route(kind, id, rest), '/') == ["", kind, id] + Split(rest, '/')
  {
    var afterKind := id + ['/'] + rest;
    var afterSlash := kind + ['/'] + afterKind;
    assert Route(kind, id, rest) == "" + ['/'] + afterSlash;
    SplitConcat("", afterSlash, '/');
    SplitConcat(kind, afterKind, '/');
    SplitConcat(id, rest, '/');
  }

  lemma ScrubHides(head: seq<string>, a: string, b: string, tail: seq<string>)
    requires |head| == 3 && Marker(head[1])
    ensures Scrub(head + [a] + tail) == Scrub(head + [b] + tail)
  {
    var x, y := head + [a] + tail, head + [b] + tail;
    ScrubIsScrubbed(x);
    var out := Scrub(x);
    assert ScrubbedAt(x, out, 1) && ScrubbedAt(x, out, 3);
    forall j | 0 <= j < |y| ensures ScrubbedAt(y, out, j) {
      assert ScrubbedAt(x, out, j);
    }
    ScrubbedUnique(y, out);
  }

  /** What is logged for a link or file route does not depend on the secret at all,
      whatever follows it. */
  lemma LogIsIndependentOfSecret(kind: string, id: string, a: string, b: string, suffix: string)
    requires Marker(kind) && '/' !in id && '/' !in a && '/' !in b
    ensures ScrubPath(Route(kind, id, a + "/" + suffix)) == ScrubPath(Route(kind, id, b + "/" + suffix))
    ensures ScrubPath(Route(kind, id, a)) == ScrubPath(Route(kind, id, b))
  {
    var tail := Split(suffix, '/');
    SplitConcat(a, suffix, '/');
    SplitConcat(b, suffix, '/');
    SameScrub(kind, id, a + "/" + suffix, b + "/" + suffix, a, b, tail);
    WholeSegment(a);
    WholeSegment(b);
    SameScrub(kind, id, a, b, a, b, []);
  }

  lemma SameScrub(kind: string, id: string, rest1: string, rest2: string,
                  a: string, b: string, tail: seq<string>)
    requires Marker(kind) && '/' !in kind && '/' !in id
    requires Split(rest1, '/') == [a] + tail && Split(rest2, '/') == [b] + tail
    ensures ScrubPath(Route(kind, id, rest1)) == ScrubPath(Route(kind, id, rest2))
  {
    RouteSegments(kind, id, rest1);
    RouteSegments(kind, id, rest2);
    var head := ["", kind, id];
    assert head + ([a] + tail) == head + [a] + tail;
    assert head + ([b] + tail) == head + [b] + tail;
    ScrubHides(head, a, b, tail);
  }

  lemma {:induction false} WholeSegment(s: string)
    requires '/' !in s
    ensures Split(s, '/') == [s]
  {
    if s != "" {
      WholeSegment(s[1..]);
      assert s == [s[0]] + s[1..];
    }
  }
}
