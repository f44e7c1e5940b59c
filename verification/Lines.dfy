/**
 * The text operations the patch parser relies on: `splitlines(keepends=True)`, `strip`, `rstrip("\n")` and splitting on
 * one character.
 */
module Lines {
  import opened Base

  /** The boundaries `str.splitlines` recognises. */
  predicate LineBreak(c: char) {
    var n := c as int;
    0x0A <= n <= 0x0D || 0x1C <= n <= 0x1E || n == 0x85 || n == 0x2028 || n == 0x2029
  }

  /** The characters `str.strip` removes. */
  predicate Space(c: char) {
    var n := c as int;
    0x09 <= n <= 0x0D || 0x1C <= n <= 0x20 || n == 0x85 || n == 0xA0 || n == 0x1680 || 0x2000 <= n <= 0x200A
    || n == 0x2028 || n == 0x2029 || n == 0x202F || n == 0x205F || n == 0x3000
  }

  /** Whether `strip()` would leave nothing. */
  predicate Blank(s: string) {
    forall c :: c in s ==> Space(c)
  }

  /** Where the first line of a text ends, its line end included. */
  function LineEnd(s: string): (n: nat)
    ensures n <= |s| && (s != [] ==> n > 0)
  {
    if s == [] then 0
    else if !LineBreak(s[0]) then 1 + LineEnd(s[1..])
    else if s[0] == '\r' && |s| > 1 && s[1] == '\n' then 2
    else 1
  }

  /** `s.splitlines(keepends=True)`. */
  function SplitLines(s: string): seq<string> {
    if s == [] then [] else [s[..LineEnd(s)]] + SplitLines(s[LineEnd(s)..])
  }

  function DropNewlines(s: string): string {
    if EndsWith(s, "\n") then DropNewlines(s[..|s| - 1]) else s
  }

  function SplitOn(s: string, sep: char): (parts: seq<string>)
    ensures |parts| > 0
  {
    if s == [] then [[]]
    else if s[0] == sep then [[]] + SplitOn(s[1..], sep)
    else
      var rest := SplitOn(s[1..], sep);
      [[s[0]] + rest[0]] + rest[1..]
  }

  function Join(parts: seq<string>, sep: char): string {
    if parts == [] then []
    else if |parts| == 1 then parts[0]
    else parts[0] + [sep] + Join(parts[1..], sep)
  }

  /** The text before the first tab, `s.split("\t", 1)[0]`. */
  function BeforeTab(s: string): string {
    if s == [] || s[0] == '\t' then [] else [s[0]] + BeforeTab(s[1..])
  }

  function ReplaceChar(s: string, from: char, to: char): (r: string)
    ensures |r| == |s| && forall i :: 0 <= i < |s| ==> r[i] == if s[i] == from then to else s[i]
  {
    if s == [] then [] else [if s[0] == from then to else s[0]] + ReplaceChar(s[1..], from, to)
  }

  predicate NoBreak(s: string) {
    forall i :: 0 <= i < |s| ==> !LineBreak(s[i])
  }

  predicate EndsInNewline(s: string) {
    |s| > 0 && s[|s| - 1] == '\n'
  }

  /** One line and its newline, with no other line break inside. */
  predicate TerminatedLine(l: string) {
    EndsInNewline(l) && NoBreak(l[..|l| - 1])
  }

  lemma {:induction false} LineEndOfLine(l: string)
    requires TerminatedLine(l)
    ensures LineEnd(l) == |l|
  {
    if |l| > 1 {
      var front := l[..|l| - 1];
      assert front[0] == l[0];
      assert l[1..][..|l| - 2] == front[1..];
      LineEndOfLine(l[1..]);
    }
  }

  lemma {:induction false} LineEndAppend(a: string, b: string)
    requires EndsInNewline(a)
    ensures LineEnd(a + b) == LineEnd(a)
  {
    if !LineBreak(a[0]) {
      assert LineBreak('\n');
      assert (a + b)[1..] == a[1..] + b;
      LineEndAppend(a[1..], b);
    }
  }

  /** A text that ends in a newline can be split apart from whatever follows it. */
  lemma {:induction false} SplitAppend(a: string, b: string)
    requires a == [] || EndsInNewline(a)
    ensures SplitLines(a + b) == SplitLines(a) + SplitLines(b)
    decreases |a|
  {
    if a == [] {
      assert a + b == b;
    } else {
      var n := LineEnd(a);
      LineEndAppend(a, b);
      assert (a + b)[..n] == a[..n];
      assert (a + b)[n..] == a[n..] + b;
      SplitAppend(a[n..], b);
      ConsAppend(a[..n], SplitLines(a[n..]), SplitLines(b));
    }
  }

  lemma ConsAppend<T>(x: T, xs: seq<T>, ys: seq<T>)
    ensures [x] + (xs + ys) == [x] + xs + ys
  {
  }

  /** Splitting the concatenation of newline-terminated lines gives the lines back. */
  lemma {:induction false} SplitConcat(lines: seq<string>)
    requires forall i :: 0 <= i < |lines| ==> TerminatedLine(lines[i])
    ensures SplitLines(Concat(lines)) == lines
  {
    if lines != [] {
      var l := lines[0];
      SplitConcat(lines[1..]);
      SplitAppend(l, Concat(lines[1..]));
      LineEndOfLine(l);
      assert l[..|l|] == l && l[|l|..] == [];
      assert SplitLines(l) == [l];
    }
  }

  /** Joining the parts of a split restores the text. */
  lemma {:induction false} JoinSplit(s: string, sep: char)
    ensures Join(SplitOn(s, sep), sep) == s
  {
    if s != [] {
      JoinSplit(s[1..], sep);
      var rest := SplitOn(s[1..], sep);
      var all := SplitOn(s, sep);
      assert s == [s[0]] + s[1..];
      if s[0] == sep {
        assert all[1..] == rest;
        assert Join(all, sep) == [] + [sep] + Join(rest, sep);
      } else {
        assert all[1..] == rest[1..];
        assert all[0] == [s[0]] + rest[0];
      }
    }
  }
}
