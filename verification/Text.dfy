/**
 The string operations of the Rust standard library that the configuration code relies on:
 `str::trim`, `str::lines`, `[String]::join("\n")` and `str::split_once`.
 */
module Text {
  import opened Wrappers

  /** Unicode White_Space, the class `str::trim` removes. */
  predicate IsSpace(c: char) {
    || '\U{9}' <= c <= '\U{D}' || c == ' ' || c == '\U{85}' || c == '\U{A0}' || c == '\U{1680}'
    || '\U{2000}' <= c <= '\U{200A}' || c == '\U{2028}' || c == '\U{2029}' || c == '\U{202F}'
    || c == '\U{205F}' || c == '\U{3000}'
  }

  function TrimStart(s: string): string {
    if s != [] && IsSpace(s[0]) then TrimStart(s[1..]) else s
  }

  function TrimEnd(s: string): string {
    if s != [] && IsSpace(s[|s| - 1]) then TrimEnd(s[..|s| - 1]) else s
  }

  function Trim(s: string): string {
    TrimEnd(TrimStart(s))
  }

  lemma {:induction false} TrimStartAppend(s: string, c: char)
    requires IsSpace(c)
    ensures TrimStart(s + [c]) == (if TrimStart(s) == [] then [] else TrimStart(s) + [c])
  {
    if s == [] {
      assert (s + [c])[1..] == [];
    } else if IsSpace(s[0]) {
      assert (s + [c])[1..] == s[1..] + [c];
      TrimStartAppend(s[1..], c);
    }
  }

  /** Trailing white space never changes what `trim` returns. */
  lemma {:induction false} TrimAppend(s: string, c: char)
    requires IsSpace(c)
    ensures Trim(s + [c]) == Trim(s)
  {
    TrimStartAppend(s, c);
    var t := TrimStart(s);
    if t != [] {
      assert (t + [c])[..|t + [c]| - 1] == t;
    }
  }

  /** The first position at or after `from` that holds `c`, or the length of the string. */
  function IndexOf(s: string, c: char, from: nat): (i: nat)
    requires from <= |s|
    ensures from <= i <= |s|
    ensures i < |s| ==> s[i] == c
    ensures forall j :: from <= j < i ==> s[j] != c
    decreases |s| - from
  {
    if from == |s| || s[from] == c then from else IndexOf(s, c, from + 1)
  }

  /** `str::split_once`. */
  function SplitOnce(s: string, c: char): Option<(string, string)> {
    var i := IndexOf(s, c, 0);
    if i == |s| then None else Some((s[..i], s[i + 1..]))
  }

  /** `str::lines` drops one carriage return in front of each line feed, and only there. */
  function StripCr(s: string): string {
    if s != [] && s[|s| - 1] == '\r' then s[..|s| - 1] else s
  }

  /** `str::lines`. */
  function Lines(t: string): seq<string>
    decreases |t|
  {
    if t == [] then []
    else
      var i := IndexOf(t, '\n', 0);
      if i == |t| then [t] else [StripCr(t[..i])] + Lines(t[i + 1..])
  }

  /** `lines.join("\n")`. */
  function Join(lines: seq<string>): string {
    if lines == [] then []
    else if |lines| == 1 then lines[0]
    else lines[0] + "\n" + Join(lines[1..])
  }

  /** Every line followed by a line feed. */
  function Unlines(lines: seq<string>): string {
    if lines == [] then [] else lines[0] + "\n" + Unlines(lines[1..])
  }

  ghost predicate NoNewline(lines: seq<string>) {
    forall i :: 0 <= i < |lines| ==> '\n' !in lines[i]
  }

  lemma {:induction false} LinesHaveNoNewline(t: string)
    ensures NoNewline(Lines(t))
    decreases |t|
  {
    if t != [] {
      var i := IndexOf(t, '\n', 0);
      if i < |t| {
        LinesHaveNoNewline(t[i + 1..]);
      }
    }
  }

  function StripCrs(lines: seq<string>): seq<string> {
    seq(|lines|, i requires 0 <= i < |lines| => StripCr(lines[i]))
  }

  lemma {:induction false} FirstLine(line: string, rest: string)
    requires '\n' !in line
    ensures Lines(line + "\n" + rest) == [StripCr(line)] + Lines(rest)
  {
    var t := line + "\n" + rest;
    var n := |line|;
    assert t[n] == '\n' && t[..n] == line && t[n + 1..] == rest;
    assert IndexOf(t, '\n', 0) == n by {
      assert forall j :: 0 <= j < n ==> t[j] == line[j];
    }
  }

  /** Splitting what was terminated line by line gives the lines back, each losing one carriage return. */
  lemma {:induction false} LinesOfUnlines(lines: seq<string>)
    requires NoNewline(lines)
    ensures Lines(Unlines(lines)) == StripCrs(lines)
  {
    if lines != [] {
      FirstLine(lines[0], Unlines(lines[1..]));
      LinesOfUnlines(lines[1..]);
      assert StripCrs(lines) == [StripCr(lines[0])] + StripCrs(lines[1..]);
    }
  }

  lemma {:induction false} Associates(a: string, b: string, c: string)
    ensures a + (b + c) == a + b + c
  {
  }

  lemma {:induction false} JoinIsUnlinesButLast(lines: seq<string>)
    requires lines != []
    ensures Join(lines) == Unlines(lines[..|lines| - 1]) + lines[|lines| - 1]
    ensures Unlines(lines) == Join(lines) + "\n"
  {
    if |lines| == 1 {
      assert lines[1..] == [];
    } else {
      var head, middle := lines[0] + "\n", Unlines(lines[1..][..|lines| - 2]);
      JoinIsUnlinesButLast(lines[1..]);
      assert lines[1..][..|lines| - 2] == lines[..|lines| - 1][1..];
      Associates(head, middle, lines[|lines| - 1]);
      Associates(head, Join(lines[1..]), "\n");
    }
  }
}
