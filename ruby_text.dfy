/**
 * The handful of Ruby string operations the proxy relies on to build its wire text:
 * `String#split` with a one-character separator, `Array#join`, `String#chomp`,
 * `IO#puts`, and, as their partner, a reader that takes "\n"-terminated lines back
 * apart the way an HTTP/1.1 client reads a header section.
 */
module RubyText {
  import opened Common

  /** Index of the first `c` in `s`, or `|s|` when `s` has none. */
  function IndexOf(s: string, c: char): (i: nat)
    ensures i <= |s|
    ensures i < |s| ==> s[i] == c
    ensures forall k :: 0 <= k < i ==> s[k] != c
  {
    if s == [] then 0
    else if s[0] == c then 0
    else 1 + IndexOf(s[1..], c)
  }

  /** The first `c` in `line + [c] + rest` is the one right after `line`. */
  lemma IndexOfAfterLine(line: string, c: char, rest: string)
    requires c !in line
    ensures IndexOf(line + [c] + rest, c) == |line|
  {
    var s := line + [c] + rest;
    var i := IndexOf(s, c);
    assert s[|line|] == c;
    assert forall k :: 0 <= k < |line| ==> s[k] == line[k];
  }

  /** Concatenation regroups freely; stated once so that proofs can cite it instead of rediscovering it. */
  lemma AppendAssociates(a: string, b: string, c: string)
    ensures a + b + c == a + (b + c)
  {
  }

  /** `xs.join(sep)`. */
  function Join(xs: seq<string>, sep: string): string
  {
    if |xs| == 0 then ""
    else if |xs| == 1 then xs[0]
    else xs[0] + sep + Join(xs[1..], sep)
  }

  /** Every piece of `s` between separators `c`, empty pieces included. */
  function Fields(s: string, c: char): (r: seq<string>)
    ensures |r| >= 1
    ensures forall k :: 0 <= k < |r| ==> c !in r[k]
    decreases |s|
  {
    var i := IndexOf(s, c);
    if i == |s| then [s] else [s[..i]] + Fields(s[i + 1..], c)
  }

  /** The fields put back together with the separator give the original string. */
  lemma {:induction false} JoinFields(s: string, c: char)
    ensures Join(Fields(s, c), [c]) == s
    decreases |s|
  {
    var i := IndexOf(s, c);
    if i < |s| {
      var tail := s[i + 1..];
      JoinFields(tail, c);
      assert Fields(s, c) == [s[..i]] + Fields(tail, c);
      assert s == s[..i] + [c] + tail;
    }
  }

  /** Drops the empty strings at the end of `xs`. */
  function DropTrailingEmpty(xs: seq<string>): (r: seq<string>)
    ensures r <= xs
    ensures |r| > 0 ==> r[|r| - 1] != ""
    ensures forall k :: |r| <= k < |xs| ==> xs[k] == ""
    decreases |xs|
  {
    if |xs| > 0 && xs[|xs| - 1] == "" then DropTrailingEmpty(xs[..|xs| - 1]) else xs
  }

  /**
   * `s.split(c)` for a one-character string separator other than a space: the fields
   * of `s`, leading empty fields kept, trailing empty fields removed.
   */
  function Split(s: string, c: char): (r: seq<string>)
    ensures r <= Fields(s, c)
    ensures forall k :: 0 <= k < |r| ==> c !in r[k]
    ensures |r| > 0 ==> r[|r| - 1] != ""
    ensures forall k :: |r| <= k < |Fields(s, c)| ==> Fields(s, c)[k] == ""
  {
    DropTrailingEmpty(Fields(s, c))
  }

  /** `(a + ":" + b).split(":")` is `[a, b]` when neither part holds a colon and `b` is not empty. */
  lemma SplitPair(a: string, c: char, b: string)
    requires c !in a && c !in b && b != ""
    ensures Split(a + [c] + b, c) == [a, b]
  {
    var s := a + [c] + b;
    IndexOfAfterLine(a, c, b);
    assert s[..|a|] == a;
    assert s[|a| + 1..] == b;
    assert IndexOf(b, c) == |b|;
    assert Fields(s, c) == [a, b];
  }

  /** A non-empty string without the separator splits into itself. */
  lemma SplitSingle(a: string, c: char)
    requires c !in a && a != ""
    ensures Split(a, c) == [a]
  {
    assert IndexOf(a, c) == |a|;
  }

  /**
   * Ruby's `String#chomp` with no argument: removes one trailing line terminator,
   * taking "\r\n" as a whole.
   */
  function Chomp(s: string): (r: string)
    ensures r <= s
    ensures s[|r|..] in ["", "\n", "\r", "\r\n"]
    ensures r == s <==> (|s| == 0 || (s[|s| - 1] != '\n' && s[|s| - 1] != '\r'))
    ensures |s| >= 2 && s[|s| - 2..] == "\r\n" ==> |r| == |s| - 2
  {
    if |s| >= 2 && s[|s| - 2..] == "\r\n" then s[..|s| - 2]
    else if |s| >= 1 && (s[|s| - 1] == '\n' || s[|s| - 1] == '\r') then
      assert s[|s| - 1..] == [s[|s| - 1]];
      s[..|s| - 1]
    else
      assert s[|s|..] == [];
      s
  }

  /** What `IO#puts(s)` writes: `s`, followed by a newline unless `s` already ends in one. */
  function Puts(s: string): (r: string)
    ensures |r| > 0 && r[|r| - 1] == '\n'
    ensures r == s || r == s + "\n"
    ensures r == s <==> (|s| > 0 && s[|s| - 1] == '\n')
  {
    if |s| > 0 && s[|s| - 1] == '\n' then s else s + "\n"
  }

  /** Each line followed by "\n". */
  function Unlines(lines: seq<string>): string
  {
    if lines == [] then "" else lines[0] + "\n" + Unlines(lines[1..])
  }

  /** Joining a non-empty list of lines with "\n" and ending with one more "\n" terminates every line. */
  lemma {:induction false} JoinUnlines(lines: seq<string>)
    requires |lines| > 0
    ensures Join(lines, "\n") + "\n" == Unlines(lines)
  {
    if |lines| > 1 {
      JoinUnlines(lines[1..]);
    }
  }

  /** True when every line is non-empty and holds no newline. */
  predicate PlainLines(lines: seq<string>)
  {
    forall k :: 0 <= k < |lines| ==> lines[k] != "" && '\n' !in lines[k]
  }

  /**
   * Reads a header section the way an HTTP/1.1 client does with "\n" line ends:
   * the lines before the first empty line, and the text after that empty line.
   * None when the text has no empty line.
   */
  function ReadHead(s: string): Option<(seq<string>, string)>
    decreases |s|
  {
    var i := IndexOf(s, '\n');
    if i == |s| then None
    else if i == 0 then Some(([], s[1..]))
    else
      match ReadHead(s[i + 1..])
      case None => None
      case Some(head) => Some(([s[..i]] + head.0, head.1))
  }

  /** Reading a text that starts with a non-empty line reads that line, then goes on after it. */
  lemma ReadHeadAfterLine(line: string, more: string)
    requires line != "" && '\n' !in line
    ensures ReadHead(line + "\n" + more) ==
      match ReadHead(more)
      case None => None
      case Some(head) => Some(([line] + head.0, head.1))
  {
    var s := line + "\n" + more;
    IndexOfAfterLine(line, '\n', more);
    assert s[..|line|] == line;
    assert s[|line| + 1..] == more;
  }

  lemma PlainLinesTail(lines: seq<string>)
    requires PlainLines(lines) && lines != []
    ensures PlainLines(lines[1..]) && lines[0] != "" && '\n' !in lines[0]
  {
    forall k | 0 <= k < |lines[1..]| ensures lines[1..][k] != "" && '\n' !in lines[1..][k] {
      assert lines[1..][k] == lines[k + 1];
    }
  }

  /** Reading back terminated plain lines followed by an empty line recovers the lines and the rest. */
  lemma {:induction false} ReadHeadUnlines(lines: seq<string>, rest: string)
    requires PlainLines(lines)
    ensures ReadHead(Unlines(lines) + "\n" + rest) == Some((lines, rest))
  {
    if lines == [] {
      var s := "\n" + rest;
      assert IndexOf(s, '\n') == 0;
      assert s[1..] == rest;
    } else {
      var line := lines[0];
      var more := Unlines(lines[1..]) + "\n" + rest;
      assert Unlines(lines) + "\n" + rest == line + "\n" + more;
      PlainLinesTail(lines);
      ReadHeadUnlines(lines[1..], rest);
      ReadHeadAfterLine(line, more);
      assert lines == [line] + lines[1..];
    }
  }
}
