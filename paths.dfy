/** Separator canonicalisation of file ids (index.ts, normalizePath).
    The source rewrites a path with JavaScript's `String.prototype.split` on the
    Windows separator followed by `Array.prototype.join` with the POSIX one;
    both are modelled here exactly, for a one-character separator. */
module Paths {

  const WinSep: char := '\\'
  const PosixSep: char := '/'

  /** `parts.join(sep)`: the parts with one `sep` between neighbours
      (an empty list joins to the empty string). The result starts with the
      first part, followed by `sep` when there is a second. */
  function Join(parts: seq<string>, sep: char): (r: string)
    ensures |parts| == 0 ==> r == ""
    ensures |parts| > 0 ==> parts[0] <= r
    ensures |parts| > 1 ==> |parts[0]| < |r| && r[|parts[0]|] == sep
  {
    if |parts| == 0 then ""
    else if |parts| == 1 then parts[0]
    else parts[0] + [sep] + Join(parts[1..], sep)
  }

  /** Joining is unchanged by prefixing a character to the first part. */
  lemma JoinPrepend(c: char, parts: seq<string>, sep: char)
    requires |parts| >= 1
    ensures Join([[c] + parts[0]] + parts[1..], sep) == [c] + Join(parts, sep)
  {
    var q := [[c] + parts[0]] + parts[1..];
    assert q[1..] == parts[1..];
  }

  /** `s.split(sep)`: the maximal runs of `s` free of `sep`, in order; a
      string without `sep` (the empty one included) gives one part, and every
      `sep` starts a new part. Joining the parts with `sep` gives `s` back. */
  function Split(s: string, sep: char): (parts: seq<string>)
    ensures |parts| >= 1
    ensures forall k :: 0 <= k < |parts| ==> sep !in parts[k]
    ensures Join(parts, sep) == s
    decreases |s|
  {
    if |s| == 0 then [""]
    else
      var rest := Split(s[1..], sep);
      if s[0] == sep then
        assert ([""] + rest)[1..] == rest;
        [""] + rest
      else
        JoinPrepend(s[0], rest, sep);
        assert s == [s[0]] + s[1..];
        [[s[0]] + rest[0]] + rest[1..]
  }

  /** Splitting a join gives the parts back, when no part holds the separator. */
  lemma {:induction false} SplitJoin(parts: seq<string>, sep: char)
    requires |parts| >= 1
    requires forall k :: 0 <= k < |parts| ==> sep !in parts[k]
    ensures Split(Join(parts, sep), sep) == parts
    decreases |parts|, |parts[0]|
  {
    if |parts[0]| == 0 {
      if |parts| > 1 {
        SplitJoin(parts[1..], sep);
        var j := Join(parts, sep);
        assert j == [sep] + Join(parts[1..], sep);
        assert j[1..] == Join(parts[1..], sep);
        assert [""] + parts[1..] == parts;
      }
    } else {
      var c := parts[0][0];
      var tail := [parts[0][1..]] + parts[1..];
      assert parts[0] == [c] + parts[0][1..];
      assert sep !in parts[0][1..] by {
        assert forall x :: x in parts[0][1..] ==> x in parts[0];
      }
      assert forall k :: 0 <= k < |tail| ==> sep !in tail[k] by {
        forall k | 0 <= k < |tail| ensures sep !in tail[k] {
          if k > 0 { assert tail[k] == parts[k]; }
        }
      }
      SplitJoin(tail, sep);
      assert tail[1..] == parts[1..];
      JoinPrepend(c, tail, sep);
      assert [[c] + tail[0]] + tail[1..] == parts;
      var j := Join(parts, sep);
      assert j == [c] + Join(tail, sep);
      assert j[1..] == Join(tail, sep);
    }
  }

  /** Rewriting by split-and-join replaces every `from` with `to` in place
      and keeps every other character where it was. */
  lemma {:induction false} JoinSplitReplaces(s: string, from: char, to: char)
    ensures |Join(Split(s, from), to)| == |s|
    ensures forall i :: 0 <= i < |s| ==>
              Join(Split(s, from), to)[i] == if s[i] == from then to else s[i]
    decreases |s|
  {
    if |s| > 0 {
      JoinSplitReplaces(s[1..], from, to);
      var rest := Split(s[1..], from);
      var r := Join(Split(s, from), to);
      if s[0] == from {
        assert ([""] + rest)[1..] == rest;
        assert r == [to] + Join(rest, to);
      } else {
        JoinPrepend(s[0], rest, to);
        assert r == [s[0]] + Join(rest, to);
      }
    }
  }

  /** normalizePath (index.ts:6-8): every Windows separator becomes a POSIX
      one; the length and every other character are kept in place. */
  function NormalizePath(filePath: string): (r: string)
    ensures |r| == |filePath|
    ensures WinSep !in r
    ensures forall i :: 0 <= i < |filePath| && filePath[i] != WinSep ==> r[i] == filePath[i]
    ensures forall i :: 0 <= i < |filePath| && filePath[i] == WinSep ==> r[i] == PosixSep
  {
    JoinSplitReplaces(filePath, WinSep, PosixSep);
    var r := Join(Split(filePath, WinSep), PosixSep);
    assert forall k :: 0 <= k < |r| ==> r[k] != WinSep;
    r
  }

  /** A path without Windows separators is already normal. */
  lemma NormalizePathNoWinSep(filePath: string)
    requires WinSep !in filePath
    ensures NormalizePath(filePath) == filePath
  {
  }

  /** Normalising twice is normalising once. */
  lemma NormalizePathIdempotent(filePath: string)
    ensures NormalizePath(NormalizePath(filePath)) == NormalizePath(filePath)
  {
    NormalizePathNoWinSep(NormalizePath(filePath));
  }

  /** Two paths that agree everywhere except for the choice of separator at
      some positions normalise to the same path. */
  lemma NormalizePathSeparatorBlind(a: string, b: string)
    requires |a| == |b|
    requires forall i :: 0 <= i < |a| ==>
               a[i] == b[i] || (a[i] in {WinSep, PosixSep} && b[i] in {WinSep, PosixSep})
    ensures NormalizePath(a) == NormalizePath(b)
  {
    var na, nb := NormalizePath(a), NormalizePath(b);
    forall i | 0 <= i < |a| ensures na[i] == nb[i] {
    }
  }
}
