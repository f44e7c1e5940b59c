/**
 * `prepare` of diffs as `git diff` writes them: sections introduced by `diff --git` and further lines, hunk headers and
 * `\ No newline` markers anywhere between the lines of text.
 */
module PatchGit {
  import opened Base
  import opened Lines
  import opened PatchModels
  import opened PatchParser
  import opened PatchRoundTrip
  import Utf8

  /** A line of a section below its header: one of the file's text, or anything else. */
  datatype BodyLine = Text(edit: Edit) | Other(content: string)

  /** One file section with the lines written before its header. */
  datatype GitSection = GitSection(preamble: seq<string>, path: Path, operation: OperationType, body: seq<BodyLine>)

  function RenderBodyLine(l: BodyLine): string {
    match l
    case Text(e) => RenderEdit(e)
    case Other(content) => content + "\n"
  }

  function RenderBody(body: seq<BodyLine>): seq<string> {
    if body == [] then [] else [RenderBodyLine(body[0])] + RenderBody(body[1..])
  }

  function EditsOf(body: seq<BodyLine>): seq<Edit> {
    if body == [] then []
    else (match body[0] case Text(e) => [e] case Other(_) => []) + EditsOf(body[1..])
  }

  function RenderPreamble(preamble: seq<string>): seq<string> {
    if preamble == [] then [] else [preamble[0] + "\n"] + RenderPreamble(preamble[1..])
  }

  function ScriptOf(g: GitSection): Script {
    Script(g.path, g.operation, "", EditsOf(g.body))
  }

  function ScriptsOf(gs: seq<GitSection>): seq<Script> {
    if gs == [] then [] else [ScriptOf(gs[0])] + ScriptsOf(gs[1..])
  }

  function SectionLines(g: GitSection): seq<string> {
    RenderPreamble(g.preamble) + ([OldLine(ScriptOf(g)), NewLine(ScriptOf(g))] + RenderBody(g.body))
  }

  function GitLines(gs: seq<GitSection>): seq<string> {
    if gs == [] then [] else SectionLines(gs[0]) + GitLines(gs[1..])
  }

  function RenderGit(gs: seq<GitSection>): string {
    Concat(GitLines(gs))
  }

  // ---------------------------------------------------------------- what may be written where

  /** A line that is none of the file's text and starts no section. */
  predicate OtherLine(content: string) {
    NoBreak(content) && (content == [] || content[0] !in " +-") && !StartsWith(content, "diff --git ")
  }

  predicate GitRenderable(g: GitSection) {
    && (forall i :: 0 <= i < |g.preamble| ==> NoBreak(g.preamble[i]) && !StartsWith(g.preamble[i], "--- "))
    && NoBreak(g.path) && SafePath(g.path)
    && forall i :: 0 <= i < |g.body| ==>
         if g.body[i].Text? then NoBreak(g.body[i].edit.text) else OtherLine(g.body[i].content)
  }

  /** After another section, the lines before a header start with `diff --git `; there may be none. */
  predicate Introduced(g: GitSection) {
    g.preamble == [] || StartsWith(g.preamble[0], "diff --git ")
  }

  predicate AllGitRenderable(gs: seq<GitSection>) {
    && (forall i :: 0 <= i < |gs| ==> GitRenderable(gs[i]))
    && (forall i :: 0 < i < |gs| ==> Introduced(gs[i]))
  }

  /** A line that the scanner passes over: a hunk header, a marker for a missing newline, or an empty line. */
  predicate PassedOver(content: string) {
    StartsWith(content, "@@") || StartsWith(content, "\\ No newline") || Blank(content)
  }

  predicate NothingStray(body: seq<BodyLine>) {
    forall i :: 0 <= i < |body| && body[i].Other? ==> PassedOver(body[i].content)
  }

  /** Why a section is refused, given the paths of those before it. */
  function Refusal(g: GitSection, files: Files, seen: set<Path>): Option<PatchError> {
    if g.path in seen then Some(DuplicatePath)
    else if g.operation == Create && g.path in files then Some(CreateTargetExists)
    else if g.operation == Modify && g.path !in files then Some(ModifyTargetMissing)
    else if g.operation == Delete && g.path !in files then Some(DeleteTargetMissing)
    else if !NothingStray(g.body) then Some(InvalidHunk)
    else
      match Lookup(files, g.path)
      case None => None
      case Some(bytes) =>
        if bytes == Utf8.Encode(OldText(EditsOf(g.body))) then None
        else if Utf8.Decode(bytes) == None then Some(NotUtf8)
        else Some(ContextMismatch)
  }

  function FirstRefusal(gs: seq<GitSection>, files: Files, seen: set<Path>): Option<PatchError> {
    if gs == [] then None
    else if Refusal(gs[0], files, seen).Some? then Refusal(gs[0], files, seen)
    else FirstRefusal(gs[1..], files, seen + {gs[0].path})
  }

  // ---------------------------------------------------------------- the lines of one section

  lemma PrefixOfLine(prefix: string, text: string)
    requires '\n' !in prefix
    ensures prefix <= text + "\n" <==> prefix <= text
  {
    var l := text + "\n";
    assert l[|text|] == '\n';
    if |prefix| <= |text| {
      assert l[..|prefix|] == text[..|prefix|];
    }
  }

  lemma BlankLine(text: string)
    ensures Blank(text + "\n") <==> Blank(text)
  {
    var l := text + "\n";
    assert Space('\n');
    assert forall c :: c in text ==> c in l;
    assert forall c :: c in l ==> c in text || c == '\n';
  }

  /** How the scanner sees a line that is none of the file's text. */
  lemma OtherLineScanned(content: string)
    requires OtherLine(content)
    ensures var l := content + "\n";
            && !OldHeader(l) && !TextLine(l) && !StartsWith(l, "diff --git ")
            && (PassedOver(content) <==> StartsWith(l, "@@") || Ignored(l))
  {
    var l := content + "\n";
    PrefixOfLine("--- ", content);
    PrefixOfLine("@@", content);
    PrefixOfLine("diff --git ", content);
    PrefixOfLine("\\ No newline", content);
    BlankLine(content);
    if content != [] {
      assert l[0] == content[0];
      assert "--- "[0] == '-';
    } else {
      assert l[0] == '\n';
    }
  }

  /** Where the text of a section ends. */
  predicate SectionEnds(rest: seq<string>) {
    rest == [] || OldHeader(rest[0]) || StartsWith(rest[0], "diff --git ")
  }

  lemma ScanEnds(rest: seq<string>)
    requires SectionEnds(rest)
    ensures ScanHunk(rest) == Ok(Hunk([], rest))
  {
    if rest != [] && StartsWith(rest[0], "diff --git ") {
      assert rest[0][0] == 'd' && rest[0][1] == 'i';
    }
  }

  /** The scanner gathers the lines of text and nothing else, unless a stray line stops it. */
  lemma {:induction false} ScanBody(g: GitSection, body: seq<BodyLine>, rest: seq<string>)
    requires GitRenderable(g.(body := body)) && NoneLooksLikeHeader(EditsOf(body)) && SectionEnds(rest)
    ensures ScanHunk(RenderBody(body) + rest) ==
            if NothingStray(body) then Ok(Hunk(RenderEdits(EditsOf(body)), rest)) else Err(InvalidHunk)
  {
    hide OldHeader, TextLine, Ignored, PassedOver, OtherLine, RenderEdit, SectionEnds, LooksLikeHeader;
    var lines := RenderBody(body) + rest;
    if body == [] {
      assert lines == rest;
      ScanEnds(rest);
    } else {
      var l, later := body[0], body[1..];
      assert lines[0] == RenderBodyLine(l) && lines[1..] == RenderBody(later) + rest;
      assert NothingStray(body) <==> (l.Other? ==> PassedOver(l.content)) && NothingStray(later) by {
        assert forall i :: 0 <= i < |later| ==> later[i] == body[i + 1];
      }
      FirstEdit(body);
      match l {
        case Text(e) =>
          assert EditsOf(body)[0] == e && EditsOf(body)[1..] == EditsOf(later);
          RenderedEdit(e);
        case Other(content) => OtherLineScanned(content);
      }
      ScanBody(g, later, rest);
    }
  }

  lemma FirstEdit(body: seq<BodyLine>)
    requires body != []
    ensures EditsOf(body) == if body[0].Text? then [body[0].edit] + EditsOf(body[1..]) else EditsOf(body[1..])
    ensures NoneLooksLikeHeader(EditsOf(body)) ==> NoneLooksLikeHeader(EditsOf(body[1..]))
  {
    var later := EditsOf(body[1..]);
    if body[0].Text? {
      assert forall i :: 0 <= i < |later| ==> later[i] == EditsOf(body)[i + 1];
    } else {
      assert EditsOf(body) == later;
    }
  }

  lemma {:induction false} EditsRenderable(g: GitSection, body: seq<BodyLine>)
    requires GitRenderable(g.(body := body))
    ensures forall i :: 0 <= i < |EditsOf(body)| ==> NoBreak(EditsOf(body)[i].text)
  {
    hide NoBreak, OtherLine, SafePath, EditsOf, StartsWith;
    if body == [] {
      assert EditsOf([]) == [] by { NoEdits(); }
    } else {
      FirstEdit(body);
      EditsRenderable(g, body[1..]);
      assert body[0].Text? ==> NoBreak(body[0].edit.text);
    }
  }

  lemma NoEdits()
    ensures EditsOf([]) == []
  {
  }

  lemma ScriptRenderable(g: GitSection)
    requires GitRenderable(g)
    ensures Renderable(ScriptOf(g))
  {
    EditsRenderable(g, g.body);
  }

  // ---------------------------------------------------------------- one section

  /** The error of a section that is not refused before its text is read. */
  lemma PlanForGit(g: GitSection, hunk: seq<string>, files: Files)
    requires Side(hunk, '-') == OldText(EditsOf(g.body)) && Side(hunk, '+') == NewText(EditsOf(g.body))
    requires if g.operation == Create then g.path !in files else g.path in files
    requires NothingStray(g.body)
    ensures PlanFor(OldPathOf(ScriptOf(g)), NewPathOf(ScriptOf(g)), hunk, files) ==
            match Refusal(g, files, {})
            case None => Ok(PlanOf(ScriptOf(g)))
            case Some(e) => Err(e)
  {
    hide Utf8.Encode, Utf8.Decode, Side, OldText, NewText, NothingStray;
    if g.operation != Create {
      Utf8.DecodeEncode(OldText(EditsOf(g.body)));
      if Utf8.Decode(files[g.path]).Some? {
        Utf8.EncodeDecode(files[g.path]);
      }
    }
  }

  /** A section, read from its header on: its plan, or the reason why it is refused. */
  lemma SectionOfGit(g: GitSection, rest: seq<string>, files: Files, seen: set<Path>)
    requires GitRenderable(g) && NoneLooksLikeHeader(EditsOf(g.body)) && SectionEnds(rest)
    ensures var lines := [OldLine(ScriptOf(g)), NewLine(ScriptOf(g))] + (RenderBody(g.body) + rest);
            OldHeader(lines[0])
            && ParseSection(lines, files, seen) ==
               match Refusal(g, files, seen)
               case None => Ok(Section(PlanOf(ScriptOf(g)), RenderEdits(EditsOf(g.body)), rest))
               case Some(e) => Err(e)
  {
    hide ReadHeader, PlanFor, OldHeader, PlanOf, OldLine, NewLine, ScanHunk, Renderable, NoneLooksLikeHeader,
         NothingStray, GitRenderable, OldText;
    var s := ScriptOf(g);
    var body := RenderBody(g.body) + rest;
    var lines := [OldLine(s), NewLine(s)] + body;
    assert lines[2..] == body;
    ScriptRenderable(g);
    HeaderOfScript(s, body, files, seen);
    ScanBody(g, g.body, rest);
    SidesOfEdits(s.edits);
    if CheckHeader(OldPathOf(s), NewPathOf(s), files, seen).Ok? && NothingStray(g.body) {
      PlanForGit(g, RenderEdits(s.edits), files);
    }
  }

  lemma {:induction false} PreambleSkipped(preamble: seq<string>, rest: seq<string>, files: Files, seen: set<Path>)
    requires forall i :: 0 <= i < |preamble| ==> !StartsWith(preamble[i], "--- ")
    ensures ParseSections(RenderPreamble(preamble) + rest, files, seen) == ParseSections(rest, files, seen)
  {
    hide ParseSection;
    var lines := RenderPreamble(preamble) + rest;
    if preamble == [] {
      assert lines == rest;
    } else {
      PrefixOfLine("--- ", preamble[0]);
      assert lines[0] == preamble[0] + "\n" && lines[1..] == RenderPreamble(preamble[1..]) + rest;
      PreambleSkipped(preamble[1..], rest, files, seen);
    }
  }

  // ---------------------------------------------------------------- whole patches

  lemma GitStart(gs: seq<GitSection>)
    requires AllGitRenderable(gs) && gs != [] && Introduced(gs[0])
    ensures SectionEnds(GitLines(gs))
  {
    var g := gs[0];
    if g.preamble == [] {
      assert RenderPreamble([]) == [];
      assert GitLines(gs)[0] == OldLine(ScriptOf(g));
      assert OldLine(ScriptOf(g))[..4] == "--- ";
    } else {
      assert GitLines(gs)[0] == g.preamble[0] + "\n";
      PrefixOfLine("diff --git ", g.preamble[0]);
    }
  }

  predicate NoGitLookalikes(gs: seq<GitSection>) {
    forall i :: 0 <= i < |gs| ==> NoneLooksLikeHeader(EditsOf(gs[i].body))
  }

  lemma {:induction false} SectionsOfGit(gs: seq<GitSection>, files: Files, seen: set<Path>)
    requires AllGitRenderable(gs) && NoGitLookalikes(gs)
    ensures ParseSections(GitLines(gs), files, seen) ==
            match FirstRefusal(gs, files, seen)
            case None => Ok(SectionsOf(ScriptsOf(gs)))
            case Some(e) => Err(e)
  {
    hide ParseSection, GitRenderable, NoneLooksLikeHeader, Refusal, PlanOf, OldHeader, RenderEdits, Count, Added,
         Deleted, Introduced, SectionEnds, OldLine, NewLine, RenderPreamble, RenderBody;
    if gs != [] {
      var g, later := gs[0], gs[1..];
      var rest := GitLines(later);
      if later != [] {
        assert Introduced(gs[1]);
        GitStart(later);
      } else {
        assert SectionEnds(rest) by { NothingFollows(); }
      }
      FirstSection(g, rest, files, seen);
      SectionsOfGit(later, files, seen + {g.path});
    }
  }

  lemma NothingFollows()
    ensures SectionEnds([])
  {
  }

  /** The lines of one section, its preamble included, and those after it. */
  lemma FirstSection(g: GitSection, rest: seq<string>, files: Files, seen: set<Path>)
    requires GitRenderable(g) && NoneLooksLikeHeader(EditsOf(g.body)) && SectionEnds(rest)
    ensures ParseSections(SectionLines(g) + rest, files, seen) ==
            match Refusal(g, files, seen)
            case None =>
              var edits := EditsOf(g.body);
              Prepend(Sections([PlanOf(ScriptOf(g))], Added(edits), Deleted(edits)),
                ParseSections(rest, files, seen + {g.path}))
            case Some(e) => Err(e)
  {
    hide ParseSection, NoneLooksLikeHeader, Refusal, OldHeader, RenderEdits, Count, Added, Deleted, SectionEnds,
         OldLine, NewLine, RenderPreamble, RenderBody, Utf8.Encode, OldText, NewText;
    var s := ScriptOf(g);
    var top := [OldLine(s), NewLine(s)];
    var lines := top + (RenderBody(g.body) + rest);
    assert SectionLines(g) + rest == RenderPreamble(g.preamble) + lines;
    PreambleSkipped(g.preamble, lines, files, seen);
    SectionOfGit(g, rest, files, seen);
    SidesOfEdits(s.edits);
    if Refusal(g, files, seen) == None {
      SectionFirst(lines, files, seen, Section(PlanOf(s), RenderEdits(s.edits), rest));
    }
  }

  lemma {:induction false} LinesOfPreamble(preamble: seq<string>)
    requires forall i :: 0 <= i < |preamble| ==> NoBreak(preamble[i])
    ensures forall i :: 0 <= i < |RenderPreamble(preamble)| ==> TerminatedLine(RenderPreamble(preamble)[i])
  {
    hide TerminatedLine, NoBreak;
    if preamble != [] {
      LinesOfPreamble(preamble[1..]);
      TerminatedBy(preamble[0] + "\n", preamble[0]);
    }
  }

  lemma {:induction false} LinesOfBody(g: GitSection, body: seq<BodyLine>)
    requires GitRenderable(g.(body := body))
    ensures forall i :: 0 <= i < |RenderBody(body)| ==> TerminatedLine(RenderBody(body)[i])
  {
    hide TerminatedLine, NoBreak;
    if body != [] {
      LinesOfBody(g, body[1..]);
      match body[0] {
        case Text(e) =>
          NamesWithoutBreaks();
          var mark := if e.Keep? then " " else if e.Del? then "-" else "+";
          NoBreakAppend(mark, e.text);
          TerminatedBy(RenderEdit(e), mark + e.text);
        case Other(content) => TerminatedBy(content + "\n", content);
      }
    }
  }

  lemma LinesOfSection(g: GitSection)
    requires GitRenderable(g)
    ensures forall i :: 0 <= i < |SectionLines(g)| ==> TerminatedLine(SectionLines(g)[i])
  {
    hide TerminatedLine, NoBreak, RenderPreamble, RenderBody, OtherLine;
    LinesOfPreamble(g.preamble);
    LinesOfBody(g, g.body);
    NamesWithoutBreaks();
    ScriptRenderable(g);
    HeaderTerminated("--- ", "a/", ScriptOf(g), g.operation == Create);
    HeaderTerminated("+++ ", "b/", ScriptOf(g), g.operation == Delete);
  }

  lemma {:induction false} LinesOfGit(gs: seq<GitSection>)
    requires AllGitRenderable(gs)
    ensures forall i :: 0 <= i < |GitLines(gs)| ==> TerminatedLine(GitLines(gs)[i])
  {
    hide TerminatedLine, GitRenderable, SectionLines;
    if gs != [] {
      LinesOfSection(gs[0]);
      LinesOfGit(gs[1..]);
    }
  }

  lemma PreparedGitLines(gs: seq<GitSection>, files: Files)
    requires AllGitRenderable(gs)
    ensures PreparedText(RenderGit(gs), files) ==
            if gs == [] then Err(NotLfOnlyText) else PrepareLines(GitLines(gs), files)
  {
    hide PrepareLines, PreparedText, TerminatedLine, NoBreak, GitRenderable;
    LinesOfGit(gs);
    ConcatOfLines(GitLines(gs));
    SplitConcat(GitLines(gs));
    PreparedTextByLines(RenderGit(gs), files);
    if gs != [] {
      assert SectionLines(gs[0]) != [];
    }
  }

  lemma ScriptsOfLength(gs: seq<GitSection>)
    ensures |ScriptsOf(gs)| == |gs|
    ensures forall i :: 0 <= i < |gs| ==> ScriptsOf(gs)[i] == ScriptOf(gs[i])
  {
    if gs != [] {
      ScriptsOfLength(gs[1..]);
    }
  }

  /**
   * `prepare` of a diff as git writes it: the patch that the sections ask for, or the reason why the first section
   * that is refused is. Lines before the first header and those that introduce later sections change nothing.
   */
  lemma PrepareInvertsGit(gs: seq<GitSection>, files: Files)
    requires AllGitRenderable(gs) && NoGitLookalikes(gs)
    ensures PreparedText(RenderGit(gs), files) ==
            if gs == [] then Err(NotLfOnlyText)
            else
              match FirstRefusal(gs, files, {})
              case None => Ok(PatchOf(ScriptsOf(gs)))
              case Some(e) => Err(e)
  {
    hide PreparedText, FactsOf, GitRenderable, NoneLooksLikeHeader, GitLines, RenderGit, ScriptOf, FirstRefusal;
    PreparedGitLines(gs, files);
    SectionsOfGit(gs, files, {});
    ScriptsOfLength(gs);
    SectionsOfLength(ScriptsOf(gs));
  }

  // ---------------------------------------------------------------- lines that look like headers

  lemma {:induction false} HeadersInPreamble(preamble: seq<string>)
    requires forall i :: 0 <= i < |preamble| ==> !StartsWith(preamble[i], "--- ")
    ensures HeaderCount(RenderPreamble(preamble)) == 0
  {
    if preamble != [] {
      HeadersInPreamble(preamble[1..]);
      PrefixOfLine("--- ", preamble[0]);
    }
  }

  lemma {:induction false} HeadersInBody(g: GitSection, body: seq<BodyLine>)
    requires GitRenderable(g.(body := body))
    ensures HeaderCount(RenderBody(body)) == HeaderCount(RenderEdits(EditsOf(body)))
  {
    hide OldHeader, OtherLine, RenderEdit, NoBreak;
    if body != [] {
      HeadersInBody(g, body[1..]);
      FirstEdit(body);
      var lines := RenderBody(body);
      assert lines[0] == RenderBodyLine(body[0]) && lines[1..] == RenderBody(body[1..]);
      match body[0] {
        case Text(e) =>
          var edits := RenderEdits(EditsOf(body));
          assert EditsOf(body)[0] == e && EditsOf(body)[1..] == EditsOf(body[1..]);
          assert edits[0] == RenderEdit(e) && edits[1..] == RenderEdits(EditsOf(body[1..]));
        case Other(content) => OtherLineScanned(content);
      }
    }
  }

  lemma HeadersInSection(g: GitSection)
    requires GitRenderable(g)
    ensures HeaderCount(SectionLines(g)) == 1 + HeaderCount(RenderEdits(EditsOf(g.body)))
  {
    hide RenderEdits, RenderBody, RenderPreamble, OtherLine, NoBreak;
    var s := ScriptOf(g);
    var top := [OldLine(s), NewLine(s)];
    HeadersInPreamble(g.preamble);
    HeadersInBody(g, g.body);
    HeaderCountAppend(RenderPreamble(g.preamble), top + RenderBody(g.body));
    HeaderCountAppend(top, RenderBody(g.body));
    assert OldLine(s)[..4] == "--- " && NewLine(s)[0] == '+';
    assert top[1..] == [NewLine(s)] && top[1..][1..] == [];
    assert HeaderCount([NewLine(s)]) == 0;
  }

  lemma {:induction false} HeadersInGit(gs: seq<GitSection>)
    requires AllGitRenderable(gs)
    ensures HeaderCount(GitLines(gs)) >= |gs|
    ensures HeaderCount(GitLines(gs)) == |gs| <==> NoGitLookalikes(gs)
  {
    hide NoneLooksLikeHeader, GitRenderable, SectionLines;
    if gs != [] {
      var g, later := gs[0], gs[1..];
      HeadersInGit(later);
      HeadersInSection(g);
      HeadersInEdits(EditsOf(g.body));
      HeaderCountAppend(SectionLines(g), GitLines(later));
      assert NoGitLookalikes(gs) <==> NoneLooksLikeHeader(EditsOf(g.body)) && NoGitLookalikes(later) by {
        assert forall i :: 0 <= i < |later| ==> later[i] == gs[i + 1];
      }
    }
  }

  /**
   * The exact domain of the round trip for diffs as git writes them: there is a section, none is refused, and no
   * deleted line starts with `-- `.
   */
  lemma GitRoundTripExactly(gs: seq<GitSection>, files: Files)
    requires AllGitRenderable(gs)
    ensures PreparedText(RenderGit(gs), files) == Ok(PatchOf(ScriptsOf(gs)))
            <==> gs != [] && FirstRefusal(gs, files, {}) == None && NoGitLookalikes(gs)
  {
    hide PreparedText, FactsOf, NoneLooksLikeHeader, GitRenderable, ParseSections, GitLines, RenderGit, FirstRefusal,
         ScriptOf;
    ScriptsOfLength(gs);
    SectionsOfLength(ScriptsOf(gs));
    if NoGitLookalikes(gs) {
      PrepareInvertsGit(gs, files);
    } else if PreparedText(RenderGit(gs), files) == Ok(PatchOf(ScriptsOf(gs))) {
      PreparedGitLines(gs, files);
      PlansAreHeaders(GitLines(gs), files, {});
      HeadersInGit(gs);
      assert false;
    }
  }

  /** No section is refused exactly when the scripts fit the snapshot and no line of any section is stray. */
  lemma {:induction false} RefusedExactly(gs: seq<GitSection>, files: Files, seen: set<Path>)
    ensures FirstRefusal(gs, files, seen) == None <==>
            AllFit(ScriptsOf(gs), files, seen) && forall i :: 0 <= i < |gs| ==> NothingStray(gs[i].body)
  {
    hide NothingStray, Utf8.Encode, Utf8.Decode, OldText;
    if gs != [] {
      var later := gs[1..];
      RefusedExactly(later, files, seen + {gs[0].path});
      assert ScriptsOf(gs)[1..] == ScriptsOf(later);
      assert (forall i :: 0 <= i < |gs| ==> NothingStray(gs[i].body)) <==>
             NothingStray(gs[0].body) && forall i :: 0 <= i < |later| ==> NothingStray(later[i].body) by {
        assert forall i :: 0 <= i < |later| ==> later[i] == gs[i + 1];
      }
    }
  }

  function AllEdits(scripts: seq<Script>): seq<Edit> {
    if scripts == [] then [] else scripts[0].edits + AllEdits(scripts[1..])
  }

  lemma {:induction false} CountsAppend(a: seq<Edit>, b: seq<Edit>)
    ensures Added(a + b) == Added(a) + Added(b) && Deleted(a + b) == Deleted(a) + Deleted(b)
  {
    if a == [] {
      assert a + b == b;
    } else {
      assert (a + b)[1..] == a[1..] + b;
      CountsAppend(a[1..], b);
    }
  }

  lemma {:induction false} CountsOfScripts(scripts: seq<Script>)
    ensures SectionsOf(scripts).added == Added(AllEdits(scripts))
    ensures SectionsOf(scripts).deleted == Deleted(AllEdits(scripts))
  {
    if scripts != [] {
      CountsOfScripts(scripts[1..]);
      CountsAppend(scripts[0].edits, AllEdits(scripts[1..]));
    }
  }

  /** The marks of the edits, as they are written before the lines. */
  function Marks(edits: seq<Edit>): seq<char> {
    seq(|edits|, i requires 0 <= i < |edits| => if edits[i].Add? then '+' else if edits[i].Del? then '-' else ' ')
  }

  lemma {:induction false} MarksCounted(edits: seq<Edit>)
    ensures Added(edits) == multiset(Marks(edits))['+'] && Deleted(edits) == multiset(Marks(edits))['-']
  {
    if edits != [] {
      MarksCounted(edits[1..]);
      assert Marks(edits) == [Marks(edits)[0]] + Marks(edits[1..]);
    }
  }

  /**
   * The sizes a prepared patch reports: its files, and the lines added and deleted in all of them.
   */
  lemma SizesOfPatch(scripts: seq<Script>)
    ensures var facts, marks := PatchOf(scripts).facts, multiset(Marks(AllEdits(scripts)));
            facts.fileCount == |scripts| && facts.addedLines == marks['+'] && facts.deletedLines == marks['-']
  {
    CountsOfScripts(scripts);
    SectionsOfLength(scripts);
    MarksCounted(AllEdits(scripts));
  }

  // ---------------------------------------------------------------- a header with two names

  /** The header of a section that names one file as the old one and another as the new one. */
  function RenamingHeader(from: Path, to: Path): seq<string> {
    ["--- a/" + from + "\n", "+++ b/" + to + "\n"]
  }

  /** The plan for such a section: the new file is written, and the old image is what the old file holds. */
  function RenamingPlan(from: Path, to: Path, edits: seq<Edit>, files: Files): PatchFilePlan {
    var post := Some(Utf8.Encode(NewText(edits)));
    PatchFilePlan(to, Modify, Sha(Lookup(files, from)), Sha(post), Lookup(files, from), post)
  }

  lemma RenamingHeaderRead(from: Path, to: Path, rest: seq<string>, files: Files, seen: set<Path>)
    requires NoBreak(from) && SafePath(from) && NoBreak(to) && SafePath(to) && from != to
    ensures var lines := RenamingHeader(from, to) + rest;
            OldHeader(lines[0])
            && ReadHeader(lines, files, seen) ==
               if to in seen then Err(DuplicatePath) else Ok(Header(Some(from), Some(to)))
  {
    hide ParsePath, DropNewlines;
    HeaderPath("--- ", 'a', from, false);
    HeaderPath("+++ ", 'b', to, false);
    var lines := RenamingHeader(from, to) + rest;
    assert "--- a/" + from + "\n" == "--- " + (['a', '/'] + from) + "\n";
    assert "+++ b/" + to + "\n" == "+++ " + (['b', '/'] + to) + "\n";
    assert lines[0] == "--- a/" + from + "\n" && lines[1] == "+++ b/" + to + "\n";
  }

  /**
   * A section whose header names two files. The text is compared with the old file if there is one, and then planned
   * for the new one, whatever that holds; nothing is planned for the old one.
   */
  lemma RenamedSection(from: Path, to: Path, edits: seq<Edit>, rest: seq<string>, files: Files, seen: set<Path>)
    requires NoBreak(from) && SafePath(from) && NoBreak(to) && SafePath(to) && from != to
    requires NoneLooksLikeHeader(edits) && (rest == [] || OldHeader(rest[0]))
    ensures var lines := RenamingHeader(from, to) + (RenderEdits(edits) + rest);
            OldHeader(lines[0])
            && ParseSection(lines, files, seen) ==
               if to in seen then Err(DuplicatePath)
               else if from !in files || files[from] == Utf8.Encode(OldText(edits))
               then Ok(Section(RenamingPlan(from, to, edits, files), RenderEdits(edits), rest))
               else Err(if Utf8.Decode(files[from]) == None then NotUtf8 else ContextMismatch)
  {
    hide ReadHeader, OldHeader, ScanHunk, RenderEdits, Utf8.Encode, Utf8.Decode, Side, OldText, NewText,
         NoneLooksLikeHeader, SafePath, NoBreak;
    var body := RenderEdits(edits) + rest;
    var lines := RenamingHeader(from, to) + body;
    assert lines[2..] == body;
    RenamingHeaderRead(from, to, body, files, seen);
    ScanEdits(edits, rest);
    SidesOfEdits(edits);
    if from in files {
      Utf8.DecodeEncode(OldText(edits));
      if Utf8.Decode(files[from]).Some? {
        Utf8.EncodeDecode(files[from]);
      }
    }
  }
}
