/** The text a diff is made of, character by character: its lines, the paths in its headers and the parts of a path. */
module PatchPaths {
  import opened Base
  import opened Lines
  import opened PatchModels
  import opened PatchParser
  import PatchRoundTrip

  // ---------------------------------------------------------------- lines

  /** A character that ends a line for `splitlines`. */
  predicate EndsLine(c: char) {
    c in "\n\U{0B}\U{0C}\r\U{1C}\U{1D}\U{1E}\U{85}\U{2028}\U{2029}"
  }

  /** The characters that `strip` removes, and that a blank line is made of. */
  lemma SpacesExactly(c: char)
    ensures Space(c) <==>
            c in "\t\n\U{0B}\U{0C}\r\U{1C}\U{1D}\U{1E}\U{1F} \U{85}\U{A0}\U{1680}\U{2000}\U{2001}\U{2002}\U{2003}"
            || c in "\U{2004}\U{2005}\U{2006}\U{2007}\U{2008}\U{2009}\U{200A}\U{2028}\U{2029}\U{202F}\U{205F}\U{3000}"
  {
  }

  /** One line of a text: line ends only at its end, a carriage return and its newline counting as one. */
  predicate WholeLine(l: string) {
    l != [] && forall m :: 0 <= m < |l| - 1 && EndsLine(l[m]) ==> m == |l| - 2 && l[m] == '\r' && l[m + 1] == '\n'
  }

  lemma {:induction false} FirstLine(s: string)
    requires s != []
    ensures var n := LineEnd(s);
            && WholeLine(s[..n])
            && (n < |s| ==> EndsLine(s[n - 1]) && !(s[n - 1] == '\r' && s[n] == '\n'))
  {
    if !LineBreak(s[0]) && |s| > 1 {
      var later := s[1..];
      FirstLine(later);
      OneMoreChar(s[..LineEnd(s)], later[..LineEnd(later)]);
    }
  }

  /** A character that ends no line can be put before a line. */
  lemma OneMoreChar(l: string, later: string)
    requires WholeLine(later) && |l| == |later| + 1 && l[1..] == later && !EndsLine(l[0])
    ensures WholeLine(l)
  {
    hide EndsLine;
    assert forall m :: 0 < m < |l| ==> l[m] == later[m - 1];
  }

  /** A line has its line end, which is not one half of a longer one. */
  predicate EndsBefore(l: string, next: string) {
    l != [] && next != [] && EndsLine(l[|l| - 1]) && !(l[|l| - 1] == '\r' && next[0] == '\n')
  }

  /**
   * `splitlines(keepends=True)`: the lines make up the text, each is whole, and each but the last has its line end.
   */
  lemma {:induction false} SplitLinesExactly(s: string)
    ensures Concat(SplitLines(s)) == s
    ensures forall i :: 0 <= i < |SplitLines(s)| ==> WholeLine(SplitLines(s)[i])
    ensures forall i :: 0 <= i < |SplitLines(s)| - 1 ==> EndsBefore(SplitLines(s)[i], SplitLines(s)[i + 1])
    decreases |s|
  {
    hide EndsLine, WholeLine, EndsBefore, LineEnd;
    if s != [] {
      var n := LineEnd(s);
      var later := s[n..];
      FirstLine(s);
      SplitLinesExactly(later);
      assert SplitLines(s) == [s[..n]] + SplitLines(later);
      assert SplitLines(s)[1..] == SplitLines(later);
      assert s[..n] + later == s;
      if later != [] {
        FirstEnds(s, n, SplitLines(later)[0]);
      }
      forall i | 0 < i < |SplitLines(s)| - 1 ensures EndsBefore(SplitLines(s)[i], SplitLines(s)[i + 1]) {
        assert SplitLines(s)[i] == SplitLines(later)[i - 1] && SplitLines(s)[i + 1] == SplitLines(later)[i];
      }
    }
  }

  lemma FirstEnds(s: string, n: nat, next: string)
    requires s != [] && n == LineEnd(s) < |s| && next == s[n..][..LineEnd(s[n..])]
    ensures EndsBefore(s[..n], next)
  {
    hide EndsLine, WholeLine;
    FirstLine(s);
    assert next[0] == s[n];
  }

  // ---------------------------------------------------------------- the parts of a path

  /** The text from `i` to `j` lies between two separators or ends of the text, with none inside. */
  ghost predicate Delimited(s: string, sep: char, i: nat, j: nat) {
    && i <= j <= |s|
    && (i == 0 || s[i - 1] == sep) && (j == |s| || s[j] == sep)
    && forall m :: i <= m < j ==> s[m] != sep
  }

  /** A part of the text, other than the first. */
  ghost predicate LaterPart(s: string, sep: char, part: string) {
    exists i, j :: 0 < i <= j <= |s| && Delimited(s, sep, i, j) && s[i..j] == part
  }

  /** The parts are the texts between separators: the first one and the later ones. */
  lemma {:induction false} SplitOnExactly(s: string, sep: char)
    ensures var parts := SplitOn(s, sep);
            && |parts[0]| <= |s| && Delimited(s, sep, 0, |parts[0]|) && s[..|parts[0]|] == parts[0]
            && (forall part :: part in parts[1..] <==> LaterPart(s, sep, part))
  {
    var parts := SplitOn(s, sep);
    if s != [] {
      var later := s[1..];
      var rest := SplitOn(later, sep);
      SplitOnExactly(later, sep);
      if s[0] == sep {
        assert parts[1..] == rest;
        forall part ensures part in rest <==> LaterPart(s, sep, part) {
          AfterSeparator(s, sep, part);
        }
      } else {
        assert parts[1..] == rest[1..];
        forall part ensures LaterPart(later, sep, part) <==> LaterPart(s, sep, part) {
          AfterOther(s, sep, part);
        }
      }
    }
  }

  lemma Shifted(s: string, sep: char, i: nat, j: nat)
    requires s != [] && i <= j < |s|
    ensures i > 0 || s[0] == sep ==> (Delimited(s[1..], sep, i, j) <==> Delimited(s, sep, i + 1, j + 1))
    ensures s[1..][i..j] == s[i + 1..j + 1]
  {
    assert forall m :: 0 <= m < |s| - 1 ==> s[1..][m] == s[m + 1];
    if Delimited(s, sep, i + 1, j + 1) {
      assert forall m :: i <= m < j ==> s[1..][m] == s[m + 1];
    }
    if Delimited(s[1..], sep, i, j) {
      assert forall m :: i + 1 <= m < j + 1 ==> s[m] == s[1..][m - 1];
    }
  }

  lemma AfterOther(s: string, sep: char, part: string)
    requires s != [] && s[0] != sep
    ensures LaterPart(s[1..], sep, part) <==> LaterPart(s, sep, part)
  {
    hide Delimited;
    if LaterPart(s[1..], sep, part) {
      var i, j :| 0 < i <= j <= |s[1..]| && Delimited(s[1..], sep, i, j) && s[1..][i..j] == part;
      Bounded(s[1..], sep, i, j);
      Shifted(s, sep, i, j);
    }
    if LaterPart(s, sep, part) {
      var i, j :| 0 < i <= j <= |s| && Delimited(s, sep, i, j) && s[i..j] == part;
      Bounded(s, sep, i, j);
      assert i > 1 by { NotAfterOther(s, sep, j); }
      Shifted(s, sep, i - 1, j - 1);
    }
  }

  /** After a leading separator, the later parts are all the parts of what follows. */
  lemma AfterSeparator(s: string, sep: char, part: string)
    requires s != [] && s[0] == sep
    requires var rest := SplitOn(s[1..], sep);
             && |rest[0]| <= |s[1..]| && Delimited(s[1..], sep, 0, |rest[0]|) && s[1..][..|rest[0]|] == rest[0]
             && (part in rest[1..] <==> LaterPart(s[1..], sep, part))
    ensures part in SplitOn(s[1..], sep) <==> LaterPart(s, sep, part)
  {
    hide Delimited, SplitOn;
    var later := s[1..];
    var rest := SplitOn(later, sep);
    assert part in rest <==> part == rest[0] || part in rest[1..];
    if part == rest[0] {
      Shifted(s, sep, 0, |part|);
    }
    if LaterPart(later, sep, part) {
      var i, j :| 0 < i <= j <= |later| && Delimited(later, sep, i, j) && later[i..j] == part;
      Bounded(later, sep, i, j);
      Shifted(s, sep, i, j);
    }
    if LaterPart(s, sep, part) {
      var i, j :| 0 < i <= j <= |s| && Delimited(s, sep, i, j) && s[i..j] == part;
      Bounded(s, sep, i, j);
      Shifted(s, sep, i - 1, j - 1);
      if i == 1 {
        SameEnd(later, sep, j - 1, |rest[0]|);
      }
    }
  }

  lemma SameEnd(s: string, sep: char, j: nat, k: nat)
    requires Delimited(s, sep, 0, j) && Delimited(s, sep, 0, k)
    ensures j == k
  {
  }

  lemma NotAfterOther(s: string, sep: char, j: nat)
    requires s != [] && s[0] != sep
    ensures !Delimited(s, sep, 1, j)
  {
  }

  lemma Bounded(s: string, sep: char, i: nat, j: nat)
    requires Delimited(s, sep, i, j)
    ensures i <= j <= |s|
  {
  }

  /** A path is safe if no two separators follow each other, none is at an end, and no part is `.` or `..`. */
  lemma SafePartsExactly(p: Path)
    ensures SafeParts(p) <==>
            forall i, j :: 0 <= i <= j <= |p| && Delimited(p, '/', i, j) ==>
              p[i..j] != "" && p[i..j] != "." && p[i..j] != ".."
  {
    hide Delimited, LaterPart;
    SplitOnExactly(p, '/');
    var parts := SplitOn(p, '/');
    assert p[0..|parts[0]|] == parts[0];
    if SafeParts(p) {
      forall i, j | 0 <= i <= j <= |p| && Delimited(p, '/', i, j) ensures !UnsafePart(p[i..j]) {
        if i == 0 {
          SameEnd(p, '/', j, |parts[0]|);
        } else {
          assert LaterPart(p, '/', p[i..j]) by { IsLaterPart(p, i, j); }
          var k :| 0 <= k < |parts[1..]| && parts[1..][k] == p[i..j];
          assert parts[k + 1] == p[i..j];
        }
      }
    } else {
      var k :| 0 <= k < |parts| && UnsafePart(parts[k]);
      if k > 0 {
        assert parts[1..][k - 1] == parts[k];
        assert LaterPart(p, '/', parts[k]);
        DelimitedPart(p, parts[k]);
      }
    }
  }

  lemma IsLaterPart(p: Path, i: nat, j: nat)
    requires 0 < i <= j <= |p| && Delimited(p, '/', i, j)
    ensures LaterPart(p, '/', p[i..j])
  {
  }

  lemma DelimitedPart(p: Path, part: string)
    requires LaterPart(p, '/', part)
    ensures exists i, j :: 0 <= i <= j <= |p| && Delimited(p, '/', i, j) && p[i..j] == part
  {
  }

  // ---------------------------------------------------------------- the path in a header

  lemma {:induction false} BeforeTabExactly(s: string, n: nat)
    requires n <= |s| && (forall m :: 0 <= m < n ==> s[m] != '\t') && (n < |s| ==> s[n] == '\t')
    ensures BeforeTab(s) == s[..n]
  {
    if n > 0 {
      BeforeTabExactly(s[1..], n - 1);
      assert s[..n] == [s[0]] + s[1..][..n - 1];
    }
  }

  /** The path in a header value whose first tab is at `n`: without a leading `a/` or `b/`, with forward slashes. */
  function Named(value: string, n: nat): (path: string)
    requires n <= |value|
  {
    var k := if n >= 2 && value[0] in "ab" && value[1] == '/' then 2 else 0;
    seq(n - k, i requires 0 <= i < n - k => if value[k + i] == '\\' then '/' else value[k + i])
  }

  /**
   * What a header value says: `/dev/null` names no file; a value that starts like an absolute path or a drive or holds
   * a NUL is refused, and so is a path with an empty part, `.` or `..`; and any other path is taken as it is named.
   */
  lemma ParsePathExactly(value: string, n: nat)
    requires n <= |value| && (forall m :: 0 <= m < n ==> value[m] != '\t') && (n < |value| ==> value[n] == '\t')
    ensures ParsePath(value) ==
            if value == "/dev/null" then Ok(None)
            else if (|value| > 0 && value[0] in "/\\") || (|value| > 1 && value[1] == ':') || '\0' in value
              || !SafeParts(Named(value, n)) then Err(UnsafePath)
            else Ok(Some(Named(value, n)))
  {
    hide SafeParts, SplitOn, Join, BeforeTab;
    BeforeTabExactly(value, n);
    var bare := StripSide(value[..n]);
    assert bare == value[if n >= 2 && value[0] in "ab" && value[1] == '/' then 2 else 0..n] by {
      assert n >= 2 ==> value[..2] == [value[0], value[1]];
      assert "a/" == ['a', '/'] && "b/" == ['b', '/'];
      assert value[..n][0..] == value[0..n];
      assert n >= 2 ==> value[..n][..2] == value[..2];
    }
    assert ReplaceChar(bare, '\\', '/') == Named(value, n);
    JoinSplit(Named(value, n), '/');
  }
}
