/** `prepare` inverts the rendering of whole-file edit scripts as a unified diff, and exactly when it does. */
module PatchRoundTrip {
  import opened Base
  import opened Lines
  import opened PatchModels
  import opened PatchParser
  import Utf8

  datatype Edit = Keep(text: string) | Del(text: string) | Add(text: string)

  /** How one file is to change, line by line; `ranges` is whatever follows `@@` in the hunk header. */
  datatype Script = Script(path: Path, operation: OperationType, ranges: string, edits: seq<Edit>)

  function RenderEdit(e: Edit): string {
    match e
    case Keep(text) => " " + text + "\n"
    case Del(text) => "-" + text + "\n"
    case Add(text) => "+" + text + "\n"
  }

  function RenderEdits(edits: seq<Edit>): seq<string> {
    if edits == [] then [] else [RenderEdit(edits[0])] + RenderEdits(edits[1..])
  }

  function OldLine(s: Script): string {
    "--- " + (if s.operation == Create then "/dev/null" else "a/" + s.path) + "\n"
  }

  function NewLine(s: Script): string {
    "+++ " + (if s.operation == Delete then "/dev/null" else "b/" + s.path) + "\n"
  }

  function HunkLine(s: Script): string {
    "@@" + s.ranges + "\n"
  }

  function ScriptLines(s: Script): seq<string> {
    [OldLine(s), NewLine(s), HunkLine(s)] + RenderEdits(s.edits)
  }

  function RenderLines(scripts: seq<Script>): seq<string> {
    if scripts == [] then []
    else ScriptLines(scripts[0]) + RenderLines(scripts[1..])
  }

  /** The diff text that says what the scripts do. */
  function Render(scripts: seq<Script>): string {
    Concat(RenderLines(scripts))
  }

  function OldText(edits: seq<Edit>): string {
    if edits == [] then []
    else (if edits[0].Add? then [] else edits[0].text + "\n") + OldText(edits[1..])
  }

  function NewText(edits: seq<Edit>): string {
    if edits == [] then []
    else (if edits[0].Del? then [] else edits[0].text + "\n") + NewText(edits[1..])
  }

  function Added(edits: seq<Edit>): nat {
    if edits == [] then 0 else (if edits[0].Add? then 1 else 0) + Added(edits[1..])
  }

  function Deleted(edits: seq<Edit>): nat {
    if edits == [] then 0 else (if edits[0].Del? then 1 else 0) + Deleted(edits[1..])
  }

  /** The plan a script asks for. */
  function PlanOf(s: Script): PatchFilePlan {
    var pre := if s.operation == Create then None else Some(Utf8.Encode(OldText(s.edits)));
    var post := if s.operation == Delete then None else Some(Utf8.Encode(NewText(s.edits)));
    PatchFilePlan(s.path, s.operation, Sha(pre), Sha(post), pre, post)
  }

  function SectionsOf(scripts: seq<Script>): Sections {
    if scripts == [] then Sections([], 0, 0)
    else
      var later := SectionsOf(scripts[1..]);
      Sections([PlanOf(scripts[0])] + later.plans,
               Added(scripts[0].edits) + later.added, Deleted(scripts[0].edits) + later.deleted)
  }

  function PatchOf(scripts: seq<Script>): PreparedPatch {
    PreparedPatch(SectionsOf(scripts).plans, FactsOf(SectionsOf(scripts)))
  }

  /** A path that survives being written after `a/` or `b/` in a header line. */
  predicate SafePath(p: Path) {
    '\t' !in p && '\0' !in p && '\\' !in p && SafeParts(p)
  }

  /** The texts of a script are single lines. */
  predicate Renderable(s: Script) {
    && NoBreak(s.path) && NoBreak(s.ranges) && SafePath(s.path)
    && forall i :: 0 <= i < |s.edits| ==> NoBreak(s.edits[i].text)
  }

  /** A deleted line that, once marked with `-`, looks like the start of a file section. */
  predicate LooksLikeHeader(e: Edit) {
    e.Del? && StartsWith(e.text, "-- ")
  }

  predicate NoneLooksLikeHeader(edits: seq<Edit>) {
    forall i :: 0 <= i < |edits| ==> !LooksLikeHeader(edits[i])
  }

  /** The script is about the file as it is in the snapshot. */
  predicate Fits(s: Script, files: Files) {
    if s.operation == Create then s.path !in files
    else Lookup(files, s.path) == Some(Utf8.Encode(OldText(s.edits)))
  }

  /** Every script fits and none is for a path used before. */
  predicate AllFit(scripts: seq<Script>, files: Files, seen: set<Path>) {
    scripts == []
    || (scripts[0].path !in seen && Fits(scripts[0], files) && AllFit(scripts[1..], files, seen + {scripts[0].path}))
  }

  // ---------------------------------------------------------------- paths

  lemma {:induction false} BeforeTabWhole(s: string)
    ensures |BeforeTab(s)| <= |s|
    ensures BeforeTab(s) == s <==> '\t' !in s
  {
    if s != [] {
      BeforeTabWhole(s[1..]);
      assert s == [s[0]] + s[1..];
    }
  }

  lemma BeforeTabAfter(a: char, b: char, s: string)
    requires a != '\t' && b != '\t'
    ensures BeforeTab([a, b] + s) == [a, b] + BeforeTab(s)
  {
    assert ([a, b] + s)[1..] == [b] + s;
    assert ([b] + s)[1..] == s;
  }

  lemma ReplaceNothing(s: string, from: char, to: char)
    requires from != to
    ensures ReplaceChar(s, from, to) == s <==> from !in s
  {
    var r := ReplaceChar(s, from, to);
    if from !in s {
      assert forall i :: 0 <= i < |s| ==> s[i] in s;
      assert r == s;
    } else {
      var i :| 0 <= i < |s| && s[i] == from;
      assert r[i] != s[i];
    }
  }

  /** The header path parser returns exactly the path that was written, for safe paths and no others. */
  lemma ParsePathOfHeader(p: Path, side: char)
    requires side in "ab"
    ensures ParsePath([side, '/'] + p) == Ok(Some(p)) <==> SafePath(p)
  {
    hide SplitOn, Join, BeforeTab, ReplaceChar, SafeParts;
    var value := [side, '/'] + p;
    assert value[0] == side && value[1] == '/';
    assert '\0' in value <==> '\0' in p;
    BeforeTabAfter(side, '/', p);
    BeforeTabWhole(p);
    var bare := BeforeTab(p);
    StripOneSide(bare, side);
    JoinSplit(ReplaceChar(bare, '\\', '/'), '/');
    ReplaceNothing(bare, '\\', '/');
    if ParsePath(value) == Ok(Some(p)) {
      assert |bare| == |p|;
      BeforeTabShort(p);
    }
  }

  lemma StripOneSide(bare: string, side: char)
    requires side in "ab"
    ensures StripSide([side, '/'] + bare) == bare
  {
    var named := [side, '/'] + bare;
    assert named[2..] == bare;
    assert side == 'a' ==> named[..2] == "a/";
    assert side == 'b' ==> named[..2] == "b/";
  }

  lemma {:induction false} BeforeTabShort(s: string)
    requires |BeforeTab(s)| == |s|
    ensures BeforeTab(s) == s
  {
    if s != [] {
      BeforeTabWhole(s[1..]);
      BeforeTabShort(s[1..]);
    }
  }

  // ---------------------------------------------------------------- one section

  lemma RenderedEdit(e: Edit)
    ensures TextLine(RenderEdit(e)) && !StartsWith(RenderEdit(e), "@@")
    ensures OldHeader(RenderEdit(e)) <==> LooksLikeHeader(e)
    ensures RenderEdit(e)[1..] == e.text + "\n"
    ensures RenderEdit(e)[0] == if e.Keep? then ' ' else if e.Del? then '-' else '+'
  {
    var l := RenderEdit(e);
    assert l[1..] == e.text + "\n";
    if e.Del? {
      assert "--- " <= l <==> "-- " <= l[1..] by {
        assert "--- " == "-" + "-- ";
        assert l == "-" + l[1..];
        if "--- " <= l { assert l[..4] == "--- "; assert l[1..][..3] == l[..4][1..]; }
        if "-- " <= l[1..] { assert l[..4] == "-" + l[1..][..3]; }
      }
      NewlineNoHelp(e.text);
    } else {
      assert l[0] != '-';
    }
  }

  lemma NewlineNoHelp(text: string)
    ensures "-- " <= text + "\n" <==> "-- " <= text
  {
    var l := text + "\n";
    if |text| >= 3 {
      assert l[..3] == text[..3];
    } else if |text| == 2 {
      assert l[2] == '\n';
    }
  }

  /** The scanner gathers exactly the rendered edits, when none of them looks like a header. */
  lemma {:induction false} ScanEdits(edits: seq<Edit>, rest: seq<string>)
    requires NoneLooksLikeHeader(edits)
    requires rest == [] || OldHeader(rest[0])
    ensures ScanHunk(RenderEdits(edits) + rest) == Ok(Hunk(RenderEdits(edits), rest))
  {
    hide OldHeader, TextLine, Ignored;
    var lines := RenderEdits(edits) + rest;
    if edits == [] {
      assert lines == rest;
    } else {
      RenderedEdit(edits[0]);
      assert lines[0] == RenderEdit(edits[0]);
      assert lines[1..] == RenderEdits(edits[1..]) + rest;
      ScanEdits(edits[1..], rest);
    }
  }

  lemma {:induction false} SidesOfEdits(edits: seq<Edit>)
    ensures Side(RenderEdits(edits), '-') == OldText(edits)
    ensures Side(RenderEdits(edits), '+') == NewText(edits)
    ensures Count(RenderEdits(edits), '+') == Added(edits)
    ensures Count(RenderEdits(edits), '-') == Deleted(edits)
  {
    if edits != [] {
      RenderedEdit(edits[0]);
      var lines := RenderEdits(edits);
      assert lines[0] == RenderEdit(edits[0]) && lines[1..] == RenderEdits(edits[1..]);
      SidesOfEdits(edits[1..]);
    }
  }

  function OldPathOf(s: Script): Option<Path> {
    if s.operation == Create then None else Some(s.path)
  }

  function NewPathOf(s: Script): Option<Path> {
    if s.operation == Delete then None else Some(s.path)
  }

  lemma HeaderLine(mark: string, named: string)
    requires |mark| == 4
    requires named == [] || named[|named| - 1] != '\n'
    ensures var l := mark + named + "\n"; l[..4] == mark && DropNewlines(l[4..]) == named
  {
    var l := mark + named + "\n";
    assert l[4..] == named + "\n";
    assert l[4..][|named|..] == "\n";
    assert l[4..][..|named|] == named;
    assert named != [] ==> named[|named| - 1..] == [named[|named| - 1]];
  }

  lemma HeaderPath(mark: string, side: char, p: Path, absent: bool)
    requires |mark| == 4 && side in "ab" && NoBreak(p) && SafePath(p)
    ensures var l := mark + (if absent then "/dev/null" else [side, '/'] + p) + "\n";
            l[..4] == mark && ParsePath(DropNewlines(l[4..])) == Ok(if absent then None else Some(p))
  {
    var named := if absent then "/dev/null" else [side, '/'] + p;
    assert named[|named| - 1] != '\n' by {
      if !absent && p != [] {
        assert named[|named| - 1] == p[|p| - 1];
        assert LineBreak('\n');
      }
    }
    HeaderLine(mark, named);
    ParsePathOfHeader(p, side);
  }

  /** The header of a rendered script is read as its two paths, or refused exactly by the checks on them. */
  lemma HeaderOfScript(s: Script, rest: seq<string>, files: Files, seen: set<Path>)
    requires Renderable(s)
    ensures var lines := [OldLine(s), NewLine(s)] + rest;
            OldHeader(lines[0])
            && ReadHeader(lines, files, seen) ==
               match CheckHeader(OldPathOf(s), NewPathOf(s), files, seen)
               case Err(e) => Err(e)
               case Ok(_) => Ok(Header(OldPathOf(s), NewPathOf(s)))
  {
    hide ParsePath, DropNewlines, CheckHeader;
    HeaderPath("--- ", 'a', s.path, s.operation == Create);
    HeaderPath("+++ ", 'b', s.path, s.operation == Delete);
    assert "a/" == ['a', '/'] && "b/" == ['b', '/'];
    var lines := [OldLine(s), NewLine(s)] + rest;
    assert lines[0] == OldLine(s) && lines[1] == NewLine(s);
  }

  lemma CheckHeaderOfScript(s: Script, files: Files, seen: set<Path>)
    ensures CheckHeader(OldPathOf(s), NewPathOf(s), files, seen).Ok?
            <==> s.path !in seen && (if s.operation == Create then s.path !in files else s.path in files)
  {
  }

  lemma PlanForScript(s: Script, hunk: seq<string>, files: Files)
    requires Side(hunk, '-') == OldText(s.edits) && Side(hunk, '+') == NewText(s.edits)
    requires if s.operation == Create then s.path !in files else s.path in files
    ensures if Fits(s, files) then PlanFor(OldPathOf(s), NewPathOf(s), hunk, files) == Ok(PlanOf(s))
            else PlanFor(OldPathOf(s), NewPathOf(s), hunk, files).Err?
  {
    hide Utf8.Encode, Utf8.Decode, Side, OldText, NewText;
    if s.operation != Create {
      Utf8.DecodeEncode(OldText(s.edits));
      if Utf8.Decode(files[s.path]).Some? {
        Utf8.EncodeDecode(files[s.path]);
      }
    }
  }

  /** Reading the rendering of one script gives its plan if the script fits, and an error if not. */
  lemma SectionOfScript(s: Script, rest: seq<string>, files: Files, seen: set<Path>)
    requires Renderable(s) && NoneLooksLikeHeader(s.edits)
    requires rest == [] || OldHeader(rest[0])
    ensures var lines := ScriptLines(s) + rest;
            lines != [] && OldHeader(lines[0])
            && if s.path !in seen && Fits(s, files)
               then ParseSection(lines, files, seen) == Ok(Section(PlanOf(s), RenderEdits(s.edits), rest))
               else ParseSection(lines, files, seen).Err?
  {
    hide ReadHeader, CheckHeader, PlanFor, OldHeader, PlanOf, OldLine, NewLine, ScanHunk, TextLine, Renderable,
         NoneLooksLikeHeader;
    var lines := ScriptLines(s) + rest;
    var body := [HunkLine(s)] + (RenderEdits(s.edits) + rest);
    assert lines == [OldLine(s), NewLine(s)] + body;
    assert lines[2..] == body && body[1..] == RenderEdits(s.edits) + rest;
    HeaderOfScript(s, body, files, seen);
    CheckHeaderOfScript(s, files, seen);
    HunkLineSkipped(s, RenderEdits(s.edits) + rest);
    ScanEdits(s.edits, rest);
    SidesOfEdits(s.edits);
    if CheckHeader(OldPathOf(s), NewPathOf(s), files, seen).Ok? {
      PlanForScript(s, RenderEdits(s.edits), files);
    }
  }

  lemma HunkLineSkipped(s: Script, rest: seq<string>)
    ensures ScanHunk([HunkLine(s)] + rest) == ScanHunk(rest)
  {
    hide TextLine, Ignored;
    var lines := [HunkLine(s)] + rest;
    assert lines[0][0] == '@' && lines[0][..2] == "@@" && lines[1..] == rest;
  }

  // ---------------------------------------------------------------- whole patches

  predicate AllRenderable(scripts: seq<Script>) {
    forall i :: 0 <= i < |scripts| ==> Renderable(scripts[i])
  }

  /** No deleted line of any script looks like the start of a file section. */
  predicate NoHeaderLookalikes(scripts: seq<Script>) {
    forall i :: 0 <= i < |scripts| ==> NoneLooksLikeHeader(scripts[i].edits)
  }

  lemma RenderedStart(scripts: seq<Script>)
    ensures RenderLines(scripts) == [] || OldHeader(RenderLines(scripts)[0])
  {
    if scripts != [] {
      assert RenderLines(scripts)[0] == OldLine(scripts[0]);
      assert OldLine(scripts[0])[..4] == "--- ";
    }
  }

  lemma {:induction false} SectionsOfScripts(scripts: seq<Script>, files: Files, seen: set<Path>)
    requires AllRenderable(scripts) && NoHeaderLookalikes(scripts)
    ensures if AllFit(scripts, files, seen) then ParseSections(RenderLines(scripts), files, seen)
            == Ok(SectionsOf(scripts))
            else ParseSections(RenderLines(scripts), files, seen).Err?
  {
    hide ParseSection, Renderable, NoneLooksLikeHeader, Fits, PlanOf, OldHeader, ScriptLines, RenderEdits, Count,
         Added, Deleted;
    if scripts != [] {
      var s, later := scripts[0], scripts[1..];
      var lines := RenderLines(scripts);
      assert AllRenderable(later) && NoHeaderLookalikes(later);
      RenderedStart(later);
      SectionOfScript(s, RenderLines(later), files, seen);
      SidesOfEdits(s.edits);
      SectionsOfScripts(later, files, seen + {s.path});
      assert (PlanOf(s)).path == s.path by { PlanOfPath(s); }
      if s.path !in seen && Fits(s, files) {
        SectionFirst(lines, files, seen, Section(PlanOf(s), RenderEdits(s.edits), RenderLines(later)));
      }
    }
  }

  lemma PlanOfPath(s: Script)
    ensures PlanOf(s).path == s.path
  {
  }

  lemma LinesOfRendering(scripts: seq<Script>)
    requires AllRenderable(scripts)
    ensures forall i :: 0 <= i < |RenderLines(scripts)| ==> TerminatedLine(RenderLines(scripts)[i])
  {
    if scripts != [] {
      var s, later := scripts[0], scripts[1..];
      assert Renderable(s);
      assert AllRenderable(later);
      LinesOfRendering(later);
      LinesOfScript(s);
    }
  }

  lemma TerminatedBy(l: string, front: string)
    requires NoBreak(front) && l == front + "\n"
    ensures TerminatedLine(l)
  {
    assert l[..|l| - 1] == front;
  }

  lemma NoBreakAppend(a: string, b: string)
    requires NoBreak(a) && NoBreak(b)
    ensures NoBreak(a + b)
  {
  }

  lemma HeaderTerminated(mark: string, side: string, s: Script, absent: bool)
    requires Renderable(s) && NoBreak(mark) && NoBreak(side)
    ensures TerminatedLine(mark + (if absent then "/dev/null" else side + s.path) + "\n")
  {
    var named := if absent then "/dev/null" else side + s.path;
    if absent {
      NamesWithoutBreaks();
    } else {
      NoBreakAppend(side, s.path);
    }
    NoBreakAppend(mark, named);
    TerminatedBy(mark + named + "\n", mark + named);
  }

  lemma NamesWithoutBreaks()
    ensures NoBreak("/dev/null") && NoBreak("--- ") && NoBreak("+++ ") && NoBreak("a/") && NoBreak("b/")
            && NoBreak("@@")
    ensures NoBreak(" ") && NoBreak("-") && NoBreak("+")
  {
  }

  lemma LinesOfScript(s: Script)
    requires Renderable(s)
    ensures forall i :: 0 <= i < |ScriptLines(s)| ==> TerminatedLine(ScriptLines(s)[i])
  {
    hide TerminatedLine, NoBreak;
    NamesWithoutBreaks();
    HeaderTerminated("--- ", "a/", s, s.operation == Create);
    HeaderTerminated("+++ ", "b/", s, s.operation == Delete);
    NoBreakAppend("@@", s.ranges);
    TerminatedBy(HunkLine(s), "@@" + s.ranges);
    LinesOfEdits(s.edits);
  }

  lemma {:induction false} LinesOfEdits(edits: seq<Edit>)
    requires forall i :: 0 <= i < |edits| ==> NoBreak(edits[i].text)
    ensures forall i :: 0 <= i < |RenderEdits(edits)| ==> TerminatedLine(RenderEdits(edits)[i])
  {
    hide TerminatedLine, NoBreak;
    if edits != [] {
      LinesOfEdits(edits[1..]);
      NamesWithoutBreaks();
      var e := edits[0];
      var mark := if e.Keep? then " " else if e.Del? then "-" else "+";
      NoBreakAppend(mark, e.text);
      TerminatedBy(RenderEdit(e), mark + e.text);
    }
  }

  lemma {:induction false} ConcatOfLines(lines: seq<string>)
    requires forall i :: 0 <= i < |lines| ==> TerminatedLine(lines[i])
    ensures '\r' !in Concat(lines)
    ensures lines != [] ==> EndsWith(Concat(lines), "\n")
  {
    if lines != [] {
      var l, text := lines[0], Concat(lines[1..]);
      ConcatOfLines(lines[1..]);
      assert LineBreak('\r');
      assert '\r' !in l by {
        assert forall i :: 0 <= i < |l| - 1 ==> l[..|l| - 1][i] == l[i];
      }
      assert (l + text)[|l + text| - 1..] == if text == [] then [l[|l| - 1]] else text[|text| - 1..];
    }
  }

  /** Rendered scripts are prepared by reading their lines. */
  lemma PreparedRendering(scripts: seq<Script>, files: Files)
    requires AllRenderable(scripts)
    ensures scripts != [] ==> PreparedText(Render(scripts), files) == PrepareLines(RenderLines(scripts), files)
    ensures scripts == [] ==> PreparedText(Render(scripts), files).Err?
  {
    hide PrepareLines, PreparedText, TerminatedLine, NoBreak;
    LinesOfRendering(scripts);
    ConcatOfLines(RenderLines(scripts));
    SplitConcat(RenderLines(scripts));
    PreparedTextByLines(Render(scripts), files);
    assert scripts != [] ==> RenderLines(scripts)[0] == OldLine(scripts[0]);
  }

  lemma SectionsOfLength(scripts: seq<Script>)
    ensures |SectionsOf(scripts).plans| == |scripts|
  {
  }

  /**
   * Preparing a rendered patch succeeds exactly when its scripts fit the snapshot and name distinct files, and then it
   * yields, in order, the plans the scripts ask for, with exact counts.
   */
  lemma PrepareInvertsRendering(scripts: seq<Script>, files: Files)
    requires AllRenderable(scripts) && NoHeaderLookalikes(scripts)
    ensures if scripts != [] && AllFit(scripts, files, {})
            then PreparedText(Render(scripts), files) == Ok(PatchOf(scripts))
            else PreparedText(Render(scripts), files).Err?
  {
    hide PreparedText, FactsOf;
    PreparedRendering(scripts, files);
    SectionsOfScripts(scripts, files, {});
    SectionsOfLength(scripts);
  }

  // ---------------------------------------------------------------- lines that look like headers

  function HeaderCount(lines: seq<string>): nat {
    if lines == [] then 0 else (if OldHeader(lines[0]) then 1 else 0) + HeaderCount(lines[1..])
  }

  lemma {:induction false} HeaderCountAppend(a: seq<string>, b: seq<string>)
    ensures HeaderCount(a + b) == HeaderCount(a) + HeaderCount(b)
  {
    hide OldHeader;
    if a == [] {
      assert a + b == b;
    } else {
      assert (a + b)[1..] == a[1..] + b;
      HeaderCountAppend(a[1..], b);
    }
  }

  lemma {:induction false} NoHeadersInHunk(lines: seq<string>)
    requires ScanHunk(lines).Ok?
    ensures HeaderCount(ScanHunk(lines).value.rest) == HeaderCount(lines)
  {
    hide OldHeader, TextLine, Ignored;
    if lines != [] && !OldHeader(lines[0]) && ScanHunk(lines) != Ok(Hunk([], lines)) {
      NoHeadersInHunk(lines[1..]);
    }
  }

  /** Every line that looks like a file header is taken for one: a parsed diff has as many plans as such lines. */
  lemma {:induction false} PlansAreHeaders(lines: seq<string>, files: Files, seen: set<Path>)
    requires ParseSections(lines, files, seen).Ok?
    ensures |ParseSections(lines, files, seen).value.plans| == HeaderCount(lines)
    decreases |lines|
  {
    hide OldHeader, NewHeader, ReadHeader, ScanHunk, PlanFor;
    if lines == [] {
    } else if !OldHeader(lines[0]) {
      PlansAreHeaders(lines[1..], files, seen);
    } else {
      var s := ParseSection(lines, files, seen).value;
      NoHeadersInHunk(lines[2..]);
      NewHeaderIsNotOld(lines[1]);
      assert lines[1..][1..] == lines[2..];
      assert HeaderCount(lines) == 1 + HeaderCount(lines[2..]);
      PlansAreHeaders(s.rest, files, seen + {s.plan.path});
    }
  }

  lemma {:induction false} HeadersInEdits(edits: seq<Edit>)
    ensures HeaderCount(RenderEdits(edits)) == 0 <==> NoneLooksLikeHeader(edits)
  {
    hide OldHeader, LooksLikeHeader;
    if edits != [] {
      RenderedEdit(edits[0]);
      HeadersInEdits(edits[1..]);
      var lines := RenderEdits(edits);
      assert lines[0] == RenderEdit(edits[0]) && lines[1..] == RenderEdits(edits[1..]);
      assert NoneLooksLikeHeader(edits) <==> !LooksLikeHeader(edits[0]) && NoneLooksLikeHeader(edits[1..]) by {
        assert forall i :: 0 <= i < |edits[1..]| ==> edits[1..][i] == edits[i + 1];
      }
    }
  }

  lemma {:induction false} HeadersInRendering(scripts: seq<Script>)
    ensures HeaderCount(RenderLines(scripts)) >= |scripts|
    ensures HeaderCount(RenderLines(scripts)) == |scripts| <==> NoHeaderLookalikes(scripts)
  {
    hide NoneLooksLikeHeader;
    if scripts != [] {
      var s, later := scripts[0], scripts[1..];
      HeadersInRendering(later);
      HeadersInEdits(s.edits);
      HeadersInScript(s);
      HeaderCountAppend(ScriptLines(s), RenderLines(later));
      assert NoHeaderLookalikes(scripts) <==> NoneLooksLikeHeader(s.edits) && NoHeaderLookalikes(later) by {
        assert forall i :: 0 <= i < |later| ==> later[i] == scripts[i + 1];
      }
    }
  }

  lemma HeadersInScript(s: Script)
    ensures HeaderCount(ScriptLines(s)) == 1 + HeaderCount(RenderEdits(s.edits))
  {
    var top := [OldLine(s), NewLine(s), HunkLine(s)];
    HeaderCountAppend(top, RenderEdits(s.edits));
    assert OldLine(s)[..4] == "--- ";
    assert NewLine(s)[0] == '+' && HunkLine(s)[0] == '@';
    assert top[1..] == [NewLine(s), HunkLine(s)] && top[1..][1..] == [HunkLine(s)] && top[1..][1..][1..] == [];
    assert HeaderCount([HunkLine(s)]) == 0;
    assert HeaderCount([NewLine(s), HunkLine(s)]) == 0;
  }

  /**
   * The exact domain of the round trip: the rendered diff is prepared as the patch its scripts describe if and only if
   * there is a script, they fit the snapshot, and no deleted line starts with `-- `.
   */
  lemma RoundTripExactly(scripts: seq<Script>, files: Files)
    requires AllRenderable(scripts)
    ensures PreparedText(Render(scripts), files) == Ok(PatchOf(scripts))
            <==> scripts != [] && AllFit(scripts, files, {}) && NoHeaderLookalikes(scripts)
  {
    hide PreparedText, FactsOf, NoneLooksLikeHeader, Renderable, Fits, ParseSections, RenderLines, Render;
    if NoHeaderLookalikes(scripts) {
      PrepareInvertsRendering(scripts, files);
    } else if PreparedText(Render(scripts), files) == Ok(PatchOf(scripts)) {
      PreparedRendering(scripts, files);
      PlansAreHeaders(RenderLines(scripts), files, {});
      HeadersInRendering(scripts);
      SectionsOfLength(scripts);
      assert false;
    }
  }

  // ---------------------------------------------------------------- two diffs that are misread

  lemma OneLetterPathIsSafe(p: Path)
    requires |p| == 1 && p[0] !in "\t\0\\/.\n" && !LineBreak(p[0])
    ensures SafePath(p) && NoBreak(p)
  {
    assert p[1..] == [];
    assert SplitOn([], '/') == [[]];
    assert [p[0]] + [] == p;
  }

  /** Deleting an SQL comment: the marked line starts a new section, so the file's text no longer matches. */
  lemma DeletedCommentIsMisread()
    ensures var scripts := [Script("q", Modify, "", [Del("-- old")])];
            var files: Files := map["q" := Utf8.Encode("-- old\n")];
            AllRenderable(scripts) && AllFit(scripts, files, {})
            && PreparedText(Render(scripts), files) == Err(ContextMismatch)
  {
    hide PreparedText, PrepareLines, ParseSections, ParseSection, Render, Utf8.Encode;
    var s := Script("q", Modify, "", [Del("-- old")]);
    var scripts := [s];
    var files: Files := map["q" := Utf8.Encode("-- old\n")];
    OneLetterPathIsSafe("q");
    assert OldText(s.edits) == "-- old\n" by {
      assert s.edits[1..] == [];
    }
    assert RenderEdits(s.edits) == ["--- old\n"] by {
      OneEdit(Del("-- old"));
      assert "-" + "-- old" + "\n" == "--- old\n";
    }
    assert RenderLines(scripts) == ScriptLines(s) by {
      assert scripts[1..] == [];
    }
    PreparedRendering(scripts, files);
    MisreadSection(s, files);
    ParseFirstFails(RenderLines(scripts), files);
  }

  lemma OneEdit(e: Edit)
    ensures RenderEdits([e]) == [RenderEdit(e)]
  {
    assert [e][1..] == [];
    assert RenderEdits([]) == [];
  }

  lemma MisreadSection(s: Script, files: Files)
    requires Renderable(s) && s.operation == Modify && RenderEdits(s.edits) == ["--- old\n"]
    requires s.path in files && files[s.path] == Utf8.Encode("-- old\n")
    ensures OldHeader(ScriptLines(s)[0]) && ParseSection(ScriptLines(s), files, {}) == Err(ContextMismatch)
  {
    hide ReadHeader, CheckHeader, Utf8.Encode, Utf8.Decode, Renderable;
    var lines := ScriptLines(s);
    var body := [HunkLine(s), "--- old\n"];
    assert lines == [OldLine(s), NewLine(s)] + body && lines[2..] == body;
    HeaderOfScript(s, body, files, {});
    CheckHeaderOfScript(s, files, {});
    assert body == [HunkLine(s)] + ["--- old\n"];
    HunkLineSkipped(s, ["--- old\n"]);
    Utf8.DecodeEncode("-- old\n");
  }

  lemma ParseFirstFails(lines: seq<string>, files: Files)
    requires lines != [] && OldHeader(lines[0]) && ParseSection(lines, files, {}).Err?
    ensures PrepareLines(lines, files) == Err(ParseSection(lines, files, {}).error)
  {
  }

  /** A form feed inside an added line ends the line for the scanner, which then refuses the remainder. */
  lemma FormFeedIsMisread()
    ensures PreparedText(Render([Script("n", Create, "", [Add("a\U{0C}b")])]), map[]) == Err(InvalidHunk)
  {
    var s := Script("n", Create, "", [Add("a\U{0C}b")]);
    var top := Script("n", Create, "", []);
    hide PrepareLines, RenderLines, ScriptLines, Render, PreparedText, LineEnd, SplitLines, TerminatedLine;
    OneLetterPathIsSafe("n");
    var text := "+a\U{0C}b\n";
    RenderOfFormFeed(s, top, text);
    LinesOfScript(top);
    ConcatOfLines(ScriptLines(top));
    SplitConcat(ScriptLines(top));
    var before := Concat(ScriptLines(top));
    assert EndsInNewline(before) by {
      NonemptyScript(top);
      assert before[|before| - 1..] == "\n";
      assert before[|before| - 1..][0] == '\n';
    }
    SplitAppend(before, text);
    SplitFormFeed();
    PreparedTextByLines(before + text, map[]);
    assert EndsWith(before + text, "\n") by {
      assert (before + text)[|before + text| - 1..] == "\n";
    }
    FormFeedSection(top);
  }

  lemma NonemptyScript(s: Script)
    ensures ScriptLines(s) != []
  {
  }

  lemma SameHeader(s: Script, t: Script)
    requires s.path == t.path && s.operation == t.operation && s.ranges == t.ranges
    ensures OldLine(s) == OldLine(t) && NewLine(s) == NewLine(t) && HunkLine(s) == HunkLine(t)
  {
  }

  lemma RenderOfFormFeed(s: Script, top: Script, text: string)
    requires s.edits == [Add("a\U{0C}b")] && top == s.(edits := []) && text == "+a\U{0C}b\n"
    ensures Render([s]) == Concat(ScriptLines(top)) + text
  {
    hide OldLine, NewLine, HunkLine;
    OneEdit(s.edits[0]);
    assert "+" + "a\U{0C}b" + "\n" == text;
    assert [s][1..] == [];
    assert RenderLines([]) == [];
    assert RenderEdits([]) == [];
    assert OldLine(s) == OldLine(top) && NewLine(s) == NewLine(top) && HunkLine(s) == HunkLine(top) by {
      SameHeader(s, top);
    }
    assert ScriptLines(s) == ScriptLines(top) + [text];
    assert RenderLines([s]) == ScriptLines(s) + [];
    assert RenderLines([s]) == ScriptLines(top) + [text];
    ConcatAppend(ScriptLines(top), [text]);
    assert [text][1..] == [];
    assert Concat([text]) == text;
  }

  lemma SplitFormFeed()
    ensures SplitLines("+a\U{0C}b\n") == ["+a\U{0C}", "b\n"]
  {
    var text := "+a\U{0C}b\n";
    assert text[1..] == "a\U{0C}b\n" && text[1..][1..] == "\U{0C}b\n";
    assert LineEnd("\U{0C}b\n") == 1 && LineEnd("a\U{0C}b\n") == 2 && LineEnd(text) == 3;
    assert text[3..] == "b\n" && text[..3] == "+a\U{0C}";
    assert "b\n"[1..] == "\n" && "b\n"[2..] == [] && "b\n"[..2] == "b\n";
    assert LineEnd("\n") == 1 && LineEnd("b\n") == 2;
    assert SplitLines([]) == [];
    assert SplitLines("b\n") == ["b\n"];
  }

  lemma FormFeedSection(top: Script)
    requires Renderable(top) && top.operation == Create && top.edits == []
    ensures PrepareLines(ScriptLines(top) + ["+a\U{0C}", "b\n"], map[]) == Err(InvalidHunk)
  {
    hide ReadHeader, CheckHeader, Renderable;
    var rest := ["+a\U{0C}", "b\n"];
    var lines := ScriptLines(top) + rest;
    var body := [HunkLine(top)] + rest;
    assert lines == [OldLine(top), NewLine(top)] + body && lines[2..] == body;
    HeaderOfScript(top, body, map[], {});
    CheckHeaderOfScript(top, map[], {});
    HunkLineSkipped(top, rest);
    assert rest[1..] == ["b\n"];
    assert "b\n"[0] == 'b' && 'b' in "b\n" && !Space('b');
    assert !Ignored("b\n");
    assert ScanHunk(["b\n"]) == Err(InvalidHunk);
    assert rest[0][0] == '+';
    assert ScanHunk(rest) == Err(InvalidHunk);
    ParseFirstFails(lines, map[]);
  }
}
