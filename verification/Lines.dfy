/** Splitting text into lines and fields, as the standard string operations do. */
module Lines {

  /** Position of the first `c`, or the length. */
  function IndexOf(s: string, c: char): (i: nat)
    ensures i <= |s| && c !in s[..i] && (i < |s| ==> s[i] == c)
  {
    if s == "" || s[0] == c then 0 else
      var j := IndexOf(s[1..], c);
      assert s[..j + 1] == [s[0]] + s[1..][..j];
      1 + j
  }

  function WithoutReturn(line: string): string {
    if line != "" && line[|line| - 1] == '\r' then line[..|line| - 1] else line
  }

  /** Lines end at "\n" or "\r\n"; a last piece without line end is a line as it stands. */
  function Split(s: string): seq<string> {
    if s == "" then [] else
      var i := IndexOf(s, '\n');
      if i == |s| then [s] else [WithoutReturn(s[..i])] + Split(s[i + 1..])
  }

  function Fields(line: string): (f: seq<string>)
    ensures |f| > 0
  {
    var i := IndexOf(line, '\t');
    if i == |line| then [line] else [line[..i]] + Fields(line[i + 1..])
  }

  lemma FirstIndex(a: string, c: char, rest: string)
    requires c !in a
    ensures IndexOf(a + [c] + rest, c) == |a|
  {
    var s := a + [c] + rest;
    var i := IndexOf(s, c);
    assert forall k :: 0 <= k < |a| ==> s[k] == a[k] && a[k] in a;
    assert s[|a|] == c;
  }

  lemma NoIndex(a: string, c: char)
    requires c !in a
    ensures IndexOf(a, c) == |a|
  {
  }

  predicate PlainLine(line: string) { '\n' !in line && '\r' !in line }

  lemma SplitFirst(line: string, rest: string)
    requires PlainLine(line)
    ensures Split(line + "\n" + rest) == [line] + Split(rest)
  {
    FirstIndex(line, '\n', rest);
    var s := line + ['\n'] + rest;
    assert s == line + "\n" + rest;
    assert s[..|line|] == line && s[|line| + 1..] == rest;
    assert WithoutReturn(line) == line;
  }

  lemma ThreeFields(a: string, b: string, c: string)
    requires '\t' !in a && '\t' !in b && '\t' !in c
    ensures Fields(a + "\t" + b + "\t" + c) == [a, b, c]
  {
    var tail := b + ['\t'] + c;
    var line := a + ['\t'] + tail;
    assert line == a + "\t" + b + "\t" + c;
    FirstIndex(a, '\t', tail);
    FirstIndex(b, '\t', c);
    NoIndex(c, '\t');
    assert line[..|a|] == a && line[|a| + 1..] == tail;
    assert tail[..|b|] == b && tail[|b| + 1..] == c;
    assert Fields(c) == [c];
    assert Fields(tail) == [b] + [c];
  }
}
