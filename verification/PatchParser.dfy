/**
 * The hand-written diff scanner of `patching/parser.py`: a loop proved against a recursive reading of the same lines.
 */
module PatchParser {
  import opened Base
  import opened Lines
  import opened PatchModels
  import Utf8

  datatype PatchError =
    | NotLfOnlyText
    | NotUtf8
    | UnsafePath
    | MissingNewPath
    | DuplicatePath
    | ModifyTargetMissing
    | CreateTargetExists
    | DeleteTargetMissing
    | InvalidHunk
    | ContextMismatch
    | EmptyDiff

  predicate UnsafePart(part: string) {
    part == "" || part == "." || part == ".."
  }

  predicate SafeParts(path: string) {
    forall i :: 0 <= i < |SplitOn(path, '/')| ==> !UnsafePart(SplitOn(path, '/')[i])
  }

  function StripSide(named: string): string {
    if StartsWith(named, "a/") || StartsWith(named, "b/") then named[2..] else named
  }

  /** The path named in a `---` or `+++` line; `None` stands for `/dev/null`. */
  function ParsePath(value: string): Result<Option<Path>, PatchError> {
    if value == "/dev/null" then Ok(None)
    else if (value != [] && (value[0] == '/' || value[0] == '\\')) || (|value| > 1 && value[1] == ':')
      || '\0' in value then
      Err(UnsafePath)
    else
      var path := ReplaceChar(StripSide(BeforeTab(value)), '\\', '/');
      if !SafeParts(path) then Err(UnsafePath)
      else Ok(Some(Join(SplitOn(path, '/'), '/')))
  }

  predicate OldHeader(line: string) {
    StartsWith(line, "--- ")
  }

  predicate NewHeader(line: string) {
    StartsWith(line, "+++ ")
  }

  /** A line that belongs to the file's text: context, added or deleted. */
  predicate TextLine(line: string) {
    line != [] && line[0] in " +-"
  }

  /** A line between the text lines that the scanner passes over. */
  predicate Ignored(line: string) {
    Blank(line) || StartsWith(line, "\\ No newline")
  }

  /** The text lines of one file section, and the lines from where the section ends. */
  datatype Hunk = Hunk(lines: seq<string>, rest: seq<string>)

  function ScanHunk(lines: seq<string>): (r: Result<Hunk, PatchError>)
    ensures r.Ok? ==> |r.value.rest| <= |lines|
  {
    if lines == [] || OldHeader(lines[0]) then Ok(Hunk([], lines))
    else if StartsWith(lines[0], "@@") then ScanHunk(lines[1..])
    else if TextLine(lines[0]) then
      match ScanHunk(lines[1..])
      case Err(e) => Err(e)
      case Ok(h) => Ok(Hunk([lines[0]] + h.lines, h.rest))
    else if StartsWith(lines[0], "diff --git ") then Ok(Hunk([], lines))
    else if !Ignored(lines[0]) then Err(InvalidHunk)
    else ScanHunk(lines[1..])
  }

  /** The text of one side of a hunk: its context lines and the lines with the given mark. */
  function Side(hunk: seq<string>, mark: char): string {
    if hunk == [] then []
    else (if hunk[0] != [] && hunk[0][0] in [' ', mark] then hunk[0][1..] else []) + Side(hunk[1..], mark)
  }

  function Count(hunk: seq<string>, mark: char): nat {
    if hunk == [] then 0
    else (if hunk[0] != [] && hunk[0][0] == mark then 1 else 0) + Count(hunk[1..], mark)
  }

  /** The plan for one file, from the two paths in its header and the lines of its hunks. */
  function PlanFor(oldPath: Option<Path>, newPath: Option<Path>, hunk: seq<string>,
                   files: Files): Result<PatchFilePlan, PatchError>
    requires oldPath != None || newPath != None
  {
    var before := if oldPath == None then None else Lookup(files, oldPath.value);
    if before != None && Utf8.Decode(before.value) != Some(Side(hunk, '-')) then
      Err(if Utf8.Decode(before.value) == None then NotUtf8 else ContextMismatch)
    else
      var post := if newPath == None then None else Some(Utf8.Encode(Side(hunk, '+')));
      var operation := if oldPath == None then Create else if newPath == None then Delete else Modify;
      var path := if newPath == None then oldPath.value else newPath.value;
      Ok(PatchFilePlan(path, operation, Sha(before), Sha(post), before, post))
  }

  /** The checks made on a header before its hunks are read. */
  function CheckHeader(oldPath: Option<Path>, newPath: Option<Path>, files: Files,
                       seen: set<Path>): Result<Path, PatchError> {
    if (oldPath == None && newPath == None) || (if newPath == None then oldPath.value else newPath.value) in seen
      then Err(DuplicatePath)
    else if oldPath != None && oldPath.value !in files && newPath == oldPath then Err(ModifyTargetMissing)
    else if oldPath == None && newPath.value in files then Err(CreateTargetExists)
    else if newPath == None && oldPath.value !in files then Err(DeleteTargetMissing)
    else Ok(if newPath == None then oldPath.value else newPath.value)
  }

  datatype Header = Header(oldPath: Option<Path>, newPath: Option<Path>)

  /** The header at the start of `lines`. */
  function ReadHeader(lines: seq<string>, files: Files, seen: set<Path>): (r: Result<Header, PatchError>)
    requires lines != [] && OldHeader(lines[0])
    ensures r.Ok? ==> |lines| >= 2 && NewHeader(lines[1]) && (r.value.oldPath != None || r.value.newPath != None)
    ensures r.Ok? ==> CheckHeader(r.value.oldPath, r.value.newPath, files, seen).Ok?
  {
    match ParsePath(DropNewlines(lines[0][4..]))
    case Err(e) => Err(e)
    case Ok(oldPath) =>
      if |lines| < 2 || !NewHeader(lines[1]) then Err(MissingNewPath)
      else
        match ParsePath(DropNewlines(lines[1][4..]))
        case Err(e) => Err(e)
        case Ok(newPath) =>
          match CheckHeader(oldPath, newPath, files, seen)
          case Err(e) => Err(e)
          case Ok(_) => Ok(Header(oldPath, newPath))
  }

  /** One file section: its plan, its text lines, and the lines after it. */
  datatype Section = Section(plan: PatchFilePlan, hunk: seq<string>, rest: seq<string>)

  function ParseSection(lines: seq<string>, files: Files, seen: set<Path>): (r: Result<Section, PatchError>)
    requires lines != [] && OldHeader(lines[0])
    ensures r.Ok? ==> |r.value.rest| < |lines| && WellFormedPlan(r.value.plan) && r.value.plan.path !in seen
  {
    match ReadHeader(lines, files, seen)
    case Err(e) => Err(e)
    case Ok(header) =>
      match ScanHunk(lines[2..])
      case Err(e) => Err(e)
      case Ok(h) =>
        match PlanFor(header.oldPath, header.newPath, h.lines, files)
        case Err(e) => Err(e)
        case Ok(plan) => Ok(Section(plan, h.lines, h.rest))
  }

  datatype Sections = Sections(plans: seq<PatchFilePlan>, added: nat, deleted: nat)

  function Prepend(first: Sections, others: Result<Sections, PatchError>): Result<Sections, PatchError> {
    match others
    case Err(e) => Err(e)
    case Ok(s) => Ok(Sections(first.plans + s.plans, first.added + s.added, first.deleted + s.deleted))
  }

  function OneSection(s: Section): Sections {
    Sections([s.plan], Count(s.hunk, '+'), Count(s.hunk, '-'))
  }

  /** The plans of all file sections of `lines`, none of them for a path already `seen`. */
  function ParseSections(lines: seq<string>, files: Files, seen: set<Path>): Result<Sections, PatchError>
    decreases |lines|
  {
    if lines == [] then Ok(Sections([], 0, 0))
    else if !OldHeader(lines[0]) then ParseSections(lines[1..], files, seen)
    else
      match ParseSection(lines, files, seen)
      case Err(e) => Err(e)
      case Ok(s) => Prepend(OneSection(s), ParseSections(s.rest, files, seen + {s.plan.path}))
  }

  predicate TestAsset(path: Path) {
    StartsWith(path, "tests/") || EndsWith(path, "_test.py") || EndsWith(path, "/conftest.py")
  }

  predicate SensitivePath(path: Path) {
    StartsWith(path, "harness-data/") || StartsWith(path, ".env") || EndsWith(path, ".pem") || EndsWith(path, ".key")
  }

  function FactsOf(s: Sections): PatchFacts {
    PatchFacts(|s.plans|, s.added, s.deleted,
      exists i :: 0 <= i < |s.plans| && TestAsset(s.plans[i].path),
      exists i :: 0 <= i < |s.plans| && SensitivePath(s.plans[i].path))
  }

  function PrepareLines(lines: seq<string>, files: Files): Result<PreparedPatch, PatchError> {
    match ParseSections(lines, files, {})
    case Err(e) => Err(e)
    case Ok(s) => if s.plans == [] then Err(EmptyDiff) else Ok(PreparedPatch(s.plans, FactsOf(s)))
  }

  /** The meaning of `prepare(diff, snapshot)`. */
  function Prepared(diff: Bytes, files: Files): Result<PreparedPatch, PatchError> {
    if 0x0D in diff || !EndsWith(diff, [0x0A]) then Err(NotLfOnlyText)
    else
      match Utf8.Decode(diff)
      case None => Err(NotUtf8)
      case Some(text) => PrepareLines(SplitLines(text), files)
  }

  /** `prepare` of a text, which is first encoded. */
  function PreparedText(diff: string, files: Files): Result<PreparedPatch, PatchError> {
    Prepared(Utf8.Encode(diff), files)
  }

  lemma PreparedTextByLines(diff: string, files: Files)
    requires '\r' !in diff
    ensures PreparedText(diff, files) ==
            if EndsWith(diff, "\n") then PrepareLines(SplitLines(diff), files) else Err(NotLfOnlyText)
  {
    Utf8.DecodeEncode(diff);
    Utf8.AsciiInEncode(diff, '\r');
    Utf8.LastAsciiOfEncode(diff, '\n');
  }

  // ---------------------------------------------------------------- the scanner

  lemma NewHeaderIsNotOld(line: string)
    ensures !(NewHeader(line) && OldHeader(line))
  {
    if NewHeader(line) {
      assert line[0] == '+';
    }
  }

  lemma CountAppend(hunk: seq<string>, line: string, mark: char)
    ensures Count(hunk + [line], mark) == Count(hunk, mark) + (if line != [] && line[0] == mark then 1 else 0)
  {
    if hunk != [] {
      assert (hunk + [line])[1..] == hunk[1..] + [line];
      CountAppend(hunk[1..], line, mark);
    }
  }

  /** What is left to scan at line `i`, with `hunk` already gathered. */
  function Continue(hunk: seq<string>, r: Result<Hunk, PatchError>): Result<Hunk, PatchError> {
    match r
    case Err(e) => Err(e)
    case Ok(h) => Ok(Hunk(hunk + h.lines, h.rest))
  }

  lemma ContinueNothing(r: Result<Hunk, PatchError>)
    ensures Continue([], r) == r
  {
    if r.Ok? {
      assert [] + r.value.lines == r.value.lines;
    }
  }

  /** The inner loop of `prepare`: gathers the text lines of one file and counts them. */
  method ScanFrom(lines: seq<string>, start: nat, added0: nat, deleted0: nat)
      returns (error: Option<PatchError>, hunk: seq<string>, i: nat, added: nat, deleted: nat)
    requires start <= |lines|
    ensures error == None ==> start <= i <= |lines| && ScanHunk(lines[start..]) == Ok(Hunk(hunk, lines[i..]))
    ensures error == None ==> added == added0 + Count(hunk, '+') && deleted == deleted0 + Count(hunk, '-')
    ensures error != None ==> ScanHunk(lines[start..]) == Err(error.value)
  {
    error, hunk, i, added, deleted := None, [], start, added0, deleted0;
    ContinueNothing(ScanHunk(lines[start..]));
    while i < |lines| && !OldHeader(lines[i])
      invariant start <= i <= |lines|
      invariant ScanHunk(lines[start..]) == Continue(hunk, ScanHunk(lines[i..]))
      invariant added == added0 + Count(hunk, '+') && deleted == deleted0 + Count(hunk, '-')
    {
      var line := lines[i];
      assert lines[i..][1..] == lines[i + 1..];
      if StartsWith(line, "@@") {
        i := i + 1;
        continue;
      }
      if TextLine(line) {
        CountAppend(hunk, line, '+');
        CountAppend(hunk, line, '-');
        AddTextLine(hunk, lines[i..]);
        hunk := hunk + [line];
        if StartsWith(line, "+") {
          added := added + 1;
        } else if StartsWith(line, "-") {
          deleted := deleted + 1;
        }
      } else if StartsWith(line, "diff --git ") {
        break;
      } else if !Ignored(line) {
        error := Some(InvalidHunk);
        return;
      }
      i := i + 1;
    }
    assert hunk + [] == hunk;
  }

  /** One round of the outer loop that finds a header: everything up to the end of that file's section. */
  method SectionFrom(lines: seq<string>, start: nat, files: Files, plans: seq<PatchFilePlan>, added0: nat,
                     deleted0: nat)
      returns (r: Result<PatchFilePlan, PatchError>, ghost hunk: seq<string>, i: nat, added: nat, deleted: nat)
    requires start < |lines| && OldHeader(lines[start])
    ensures r.Ok? ==> start < i <= |lines|
    ensures r.Ok? ==> ParseSection(lines[start..], files, PathsOf(plans)) == Ok(Section(r.value, hunk, lines[i..]))
    ensures r.Ok? ==> added == added0 + Count(hunk, '+') && deleted == deleted0 + Count(hunk, '-')
    ensures r.Err? ==> ParseSection(lines[start..], files, PathsOf(plans)) == Err(r.error)
  {
    hunk, i, added, deleted := [], start, added0, deleted0;
    var header := ReadHeader(lines[start..], files, PathsOf(plans));
    if header.Err? {
      return Err(header.error), hunk, i, added, deleted;
    }
    assert lines[start..][2..] == lines[start + 2..];
    var error, text;
    error, text, i, added, deleted := ScanFrom(lines, start + 2, added, deleted);
    hunk := text;
    if error != None {
      return Err(error.value), hunk, i, added, deleted;
    }
    r := PlanFor(header.value.oldPath, header.value.newPath, text, files);
  }

  method Prepare(diff: Bytes, files: Files) returns (r: Result<PreparedPatch, PatchError>)
    ensures r == Prepared(diff, files)
  {
    if 0x0D in diff || !EndsWith(diff, [0x0A]) {
      return Err(NotLfOnlyText);
    }
    var decoded := Utf8.Decode(diff);
    if decoded == None {
      return Err(NotUtf8);
    }
    var lines := SplitLines(decoded.value);
    r := PrepareFromLines(lines, files);
  }

  method PrepareFromLines(lines: seq<string>, files: Files) returns (r: Result<PreparedPatch, PatchError>)
    ensures r == PrepareLines(lines, files)
  {
    hide ParseSection;
    var plans: seq<PatchFilePlan> := [];
    var i: nat, added: nat, deleted: nat := 0, 0, 0;
    ghost var all := ParseSections(lines, files, {});
    NothingGathered(all);
    assert lines[0..] == lines;
    while i < |lines|
      invariant 0 <= i <= |lines|
      invariant Gathered(all, Sections(plans, added, deleted), lines[i..], files)
    {
      if !OldHeader(lines[i]) {
        SkipLine(Sections(plans, added, deleted), lines, i, files, all);
        i := i + 1;
        continue;
      }
      var section, hunk, next, added', deleted' := SectionFrom(lines, i, files, plans, added, deleted);
      if section.Err? {
        return Err(section.error);
      }
      AddSection(Sections(plans, added, deleted), lines[i..], files, Section(section.value, hunk, lines[next..]), all);
      plans, i, added, deleted := plans + [section.value], next, added', deleted';
    }
    assert plans + [] == plans;
    if plans == [] {
      return Err(EmptyDiff);
    }
    return Ok(PreparedPatch(plans, FactsOf(Sections(plans, added, deleted))));
  }

  /** `done` and what is still to be read from `lines` make up the whole result. */
  ghost predicate Gathered(all: Result<Sections, PatchError>, done: Sections, lines: seq<string>, files: Files) {
    all == Prepend(done, ParseSections(lines, files, PathsOf(done.plans)))
  }

  lemma NothingGathered(r: Result<Sections, PatchError>)
    ensures PathsOf([]) == {}
    ensures Prepend(Sections([], 0, 0), r) == r
  {
    if r.Ok? {
      assert [] + r.value.plans == r.value.plans;
    }
  }

  lemma AppendPlan(plans: seq<PatchFilePlan>, plan: PatchFilePlan)
    ensures PathsOf(plans + [plan]) == PathsOf(plans) + {plan.path}
  {
    var all := plans + [plan];
    assert forall i :: 0 <= i < |plans| ==> all[i] == plans[i];
    assert all[|plans|] == plan;
    forall p | p in PathsOf(plans) ensures p in PathsOf(all) {
      var i :| 0 <= i < |plans| && plans[i].path == p;
      assert all[i].path == p;
    }
  }

  /** Reading one more section moves its plan from what is to come into what has been gathered. */
  lemma AddSection(done: Sections, lines: seq<string>, files: Files, s: Section, all: Result<Sections, PatchError>)
    requires lines != [] && OldHeader(lines[0])
    requires ParseSection(lines, files, PathsOf(done.plans)) == Ok(s)
    requires Gathered(all, done, lines, files)
    ensures Gathered(all, Sections(done.plans + [s.plan], done.added + Count(s.hunk, '+'),
            done.deleted + Count(s.hunk, '-')),
                     s.rest, files)
  {
    hide ParseSection;
    AppendPlan(done.plans, s.plan);
    SectionFirst(lines, files, PathsOf(done.plans), s);
    PrependTwice(done, OneSection(s), ParseSections(s.rest, files, PathsOf(done.plans + [s.plan])));
  }

  lemma SkipLine(done: Sections, lines: seq<string>, i: nat, files: Files, all: Result<Sections, PatchError>)
    requires i < |lines| && !OldHeader(lines[i])
    requires Gathered(all, done, lines[i..], files)
    ensures Gathered(all, done, lines[i + 1..], files)
  {
    assert lines[i..][1..] == lines[i + 1..];
  }

  lemma SectionFirst(lines: seq<string>, files: Files, seen: set<Path>, s: Section)
    requires lines != [] && OldHeader(lines[0])
    requires ParseSection(lines, files, seen) == Ok(s)
    ensures ParseSections(lines, files, seen) == Prepend(OneSection(s),
            ParseSections(s.rest, files, seen + {s.plan.path}))
  {
  }

  /** Scanning a text line moves it from what is to come into what has been gathered. */
  lemma AddTextLine(hunk: seq<string>, lines: seq<string>)
    requires lines != [] && !OldHeader(lines[0]) && TextLine(lines[0])
    ensures Continue(hunk, ScanHunk(lines)) == Continue(hunk + [lines[0]], ScanHunk(lines[1..]))
  {
    var r := ScanHunk(lines[1..]);
    if r.Ok? {
      assert hunk + ([lines[0]] + r.value.lines) == hunk + [lines[0]] + r.value.lines;
    }
  }

  lemma PrependTwice(a: Sections, b: Sections, r: Result<Sections, PatchError>)
    ensures Prepend(a, Prepend(b, r)) == Prepend(Sections(a.plans + b.plans, a.added + b.added,
            a.deleted + b.deleted), r)
  {
    if r.Ok? {
      assert a.plans + (b.plans + r.value.plans) == a.plans + b.plans + r.value.plans;
    }
  }
}
