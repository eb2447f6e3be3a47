// Cutting strings at separators, as the Go strings package does.
module Splitting {

  predicate HasPrefix(s: string, p: string) { |p| <= |s| && s[..|p|] == p }

  /** strings.SplitN(s, sep, 2): the first separator splits. */
  function SplitFirst(s: string, sep: char): (r: seq<string>)
    ensures |r| == 1 <==> sep !in s
    ensures |r| == 2 ==> s == r[0] + [sep] + r[1] && sep !in r[0]
    ensures 1 <= |r| <= 2
  {
    if s == "" then [s]
    else if s[0] == sep then
      assert s == "" + [sep] + s[1..];
      ["", s[1..]]
    else
      var r := SplitFirst(s[1..], sep);
      assert s == [s[0]] + s[1..];
      if |r| == 1 then [s] else [[s[0]] + r[0], r[1]]
  }

  lemma {:induction false} SplitAtFirst(t: string, d: string, sep: char)
    requires sep !in t
    ensures SplitFirst(t + [sep] + d, sep) == [t, d]
  {
    var s := t + [sep] + d;
    if t == "" {
      assert s[1..] == d;
    } else {
      assert s[1..] == t[1..] + [sep] + d;
      assert t == [t[0]] + t[1..];
      SplitAtFirst(t[1..], d, sep);
    }
  }

  datatype Cut = NoCut | Cut(front: string, back: string)

  function SplitLast(s: string, sep: char): (r: Cut)
    ensures r.NoCut? <==> sep !in s
    ensures r.Cut? ==> s == r.front + [sep] + r.back && sep !in r.back
  {
    if s == "" then NoCut
    else
      var last := |s| - 1;
      assert s == s[..last] + [s[last]];
      if s[last] == sep then Cut(s[..last], "")
      else
        match SplitLast(s[..last], sep)
        case NoCut => NoCut
        case Cut(f, b) => Cut(f, b + [s[last]])
  }

  lemma {:induction false} SplitAtLast(a: string, b: string, sep: char)
    requires sep !in b
    ensures SplitLast(a + [sep] + b, sep) == Cut(a, b)
  {
    if b == "" {
      SnocFacts(a, sep);
      assert a + [sep] + b == a + [sep];
    } else {
      var front, c := b[..|b| - 1], b[|b| - 1];
      assert b == front + [c];
      SplitAtLast(a, front, sep);
      MoveLast(a + [sep], front, c);
      SnocFacts(a + [sep] + front, c);
    }
  }

  lemma SnocFacts(s: string, c: char)
    ensures s + [c] != "" && (s + [c])[..|s + [c]| - 1] == s && (s + [c])[|s + [c]| - 1] == c
  {
  }

  lemma MoveLast(a: string, b: string, c: char)
    ensures a + (b + [c]) == a + b + [c]
  {
  }

  /** strings.Split(s, sep) for a one-character separator. */
  function Split(s: string, sep: char): (r: seq<string>)
    ensures r != []
  {
    if s == "" then [""]
    else
      var r := Split(s[1..], sep);
      if s[0] == sep then [""] + r else [[s[0]] + r[0]] + r[1..]
  }

  /** strings.Join(parts, sep). */
  function Join(parts: seq<string>, sep: char): string
    requires parts != []
  {
    if |parts| == 1 then parts[0] else parts[0] + [sep] + Join(parts[1..], sep)
  }

  lemma {:induction false} JoinOfSplit(s: string, sep: char)
    ensures Join(Split(s, sep), sep) == s
    ensures forall p :: p in Split(s, sep) ==> sep !in p
  {
    if s != "" {
      var r := Split(s[1..], sep);
      JoinOfSplit(s[1..], sep);
      assert s == [s[0]] + s[1..];
      if s[0] == sep {
        assert ([""] + r)[1..] == r;
      } else {
        assert ([[s[0]] + r[0]] + r[1..])[1..] == r[1..];
        assert r[0] in r;
      }
    }
  }

  lemma {:induction false} SplitOfJoin(parts: seq<string>, sep: char)
    requires parts != [] && forall p :: p in parts ==> sep !in p
    ensures Split(Join(parts, sep), sep) == parts
    decreases |parts|, |parts[0]|
  {
    var s := Join(parts, sep);
    if parts[0] != "" {
      var shorter := [parts[0][1..]] + parts[1..];
      assert parts[0] == [parts[0][0]] + parts[0][1..];
      assert parts[0][0] in parts[0] && parts[0] in parts;
      assert shorter[1..] == parts[1..];
      assert s == [parts[0][0]] + Join(shorter, sep);
      assert s[1..] == Join(shorter, sep);
      assert forall p :: p in shorter ==> sep !in p;
      SplitOfJoin(shorter, sep);
      assert parts == [[s[0]] + shorter[0]] + shorter[1..];
    } else if |parts| == 1 {
      assert parts == [""];
    } else {
      assert s[1..] == Join(parts[1..], sep);
      SplitOfJoin(parts[1..], sep);
      assert parts == [""] + parts[1..];
    }
  }
}
