/** What `prepare` makes of two diffs written one after the other. */
module PatchConcat {
  import opened Base
  import opened Lines
  import opened PatchModels
  import opened PatchParser
  import Utf8

  predicate HeaderNext(lines: seq<string>) {
    lines == [] || OldHeader(lines[0])
  }

  lemma {:induction false} ScanHunkAppend(a: seq<string>, b: seq<string>)
    requires HeaderNext(b)
    ensures ScanHunk(a + b) ==
            match ScanHunk(a)
            case Err(e) => Err(e)
            case Ok(h) => Ok(Hunk(h.lines, h.rest + b))
  {
    hide OldHeader, TextLine, Ignored;
    if a == [] {
      assert a + b == b;
    } else {
      assert (a + b)[1..] == a[1..] + b;
      ScanHunkAppend(a[1..], b);
    }
  }

  lemma ReadHeaderAppend(a: seq<string>, b: seq<string>, files: Files, seen: set<Path>)
    requires a != [] && OldHeader(a[0]) && HeaderNext(b)
    ensures ReadHeader(a + b, files, seen) == ReadHeader(a, files, seen)
  {
    hide OldHeader, NewHeader, ParsePath, CheckHeader, DropNewlines;
    assert (a + b)[0] == a[0];
    if |a| == 1 {
      if b != [] {
        NewHeaderIsNotOld(b[0]);
        assert (a + b)[1] == b[0];
      }
    } else {
      assert (a + b)[1] == a[1];
    }
  }

  lemma ParseSectionAppend(a: seq<string>, b: seq<string>, files: Files, seen: set<Path>)
    requires a != [] && OldHeader(a[0]) && HeaderNext(b)
    ensures ParseSection(a + b, files, seen) ==
            match ParseSection(a, files, seen)
            case Err(e) => Err(e)
            case Ok(s) => Ok(Section(s.plan, s.hunk, s.rest + b))
  {
    hide OldHeader, ReadHeader, ScanHunk, PlanFor, HeaderNext;
    ReadHeaderAppend(a, b, files, seen);
    if ReadHeader(a, files, seen).Ok? {
      ScanHunkAppend(a[2..], b);
      assert (a + b)[2..] == a[2..] + b;
    }
  }

  lemma PathsOfPrepend(plan: PatchFilePlan, plans: seq<PatchFilePlan>)
    ensures PathsOf([plan] + plans) == {plan.path} + PathsOf(plans)
  {
    var all := [plan] + plans;
    forall p | p in {plan.path} + PathsOf(plans) ensures p in PathsOf(all) {
      if p == plan.path {
        assert all[0].path == p;
      } else {
        var i :| 0 <= i < |plans| && plans[i].path == p;
        assert all[i + 1].path == p;
      }
    }
  }

  /** Reading `a` and then `b` is reading `b` with the paths of `a` already taken. */
  lemma {:induction false} ParseSectionsAppend(a: seq<string>, b: seq<string>, files: Files, seen: set<Path>)
    requires HeaderNext(b)
    ensures ParseSections(a + b, files, seen) ==
            match ParseSections(a, files, seen)
            case Err(e) => Err(e)
            case Ok(s) => Prepend(s, ParseSections(b, files, seen + PathsOf(s.plans)))
    decreases |a|
  {
    hide OldHeader, ParseSection, HeaderNext, PathsOf;
    if a == [] {
      assert a + b == b;
      NothingGathered(ParseSections(b, files, seen));
      assert seen + {} == seen;
    } else if !OldHeader(a[0]) {
      assert (a + b)[1..] == a[1..] + b;
      ParseSectionsAppend(a[1..], b, files, seen);
    } else {
      ParseSectionAppend(a, b, files, seen);
      if ParseSection(a, files, seen).Ok? {
        var s := ParseSection(a, files, seen).value;
        var seen' := seen + {s.plan.path};
        SectionFirst(a, files, seen, s);
        SectionFirst(a + b, files, seen, Section(s.plan, s.hunk, s.rest + b));
        ParseSectionsAppend(s.rest, b, files, seen');
        var later := ParseSections(s.rest, files, seen');
        if later.Ok? {
          PathsOfPrepend(s.plan, later.value.plans);
          assert seen' + PathsOf(later.value.plans) == seen + PathsOf([s.plan] + later.value.plans);
          PrependTwice(OneSection(s), later.value, ParseSections(b, files, seen' + PathsOf(later.value.plans)));
        }
      }
    }
  }

  lemma ParseSectionSeen(lines: seq<string>, files: Files, seen: set<Path>, more: set<Path>)
    requires lines != [] && OldHeader(lines[0])
    ensures ParseSection(lines, files, seen + more).Ok? <==>
            ParseSection(lines, files, seen).Ok? && ParseSection(lines, files, seen).value.plan.path !in more
    ensures ParseSection(lines, files, seen + more).Ok? ==>
            ParseSection(lines, files, seen + more) == ParseSection(lines, files, seen)
  {
    hide OldHeader, NewHeader, ParsePath, DropNewlines, ScanHunk, Side;
  }

  /** Taking more paths beforehand only rules out diffs that use them. */
  lemma {:induction false} ParseSectionsSeen(lines: seq<string>, files: Files, seen: set<Path>, more: set<Path>)
    ensures ParseSections(lines, files, seen + more).Ok? <==>
            ParseSections(lines, files, seen).Ok? && PathsOf(ParseSections(lines, files, seen).value.plans) !! more
    ensures ParseSections(lines, files, seen + more).Ok? ==>
            ParseSections(lines, files, seen + more) == ParseSections(lines, files, seen)
    decreases |lines|
  {
    hide OldHeader, ParseSection, PathsOf, OneSection;
    if lines == [] {
      NothingGathered(Ok(Sections([], 0, 0)));
    } else if !OldHeader(lines[0]) {
      ParseSectionsSeen(lines[1..], files, seen, more);
    } else {
      ParseSectionSeen(lines, files, seen, more);
      if ParseSection(lines, files, seen).Ok? {
        var s := ParseSection(lines, files, seen).value;
        var seen' := seen + {s.plan.path};
        SectionFirst(lines, files, seen, s);
        ParseSectionsSeen(s.rest, files, seen', more);
        DisjointPrepend(s, ParseSections(s.rest, files, seen'), more);
        if s.plan.path !in more {
          SectionFirst(lines, files, seen + more, s);
          assert seen + more + {s.plan.path} == seen' + more;
        }
      }
    }
  }

  lemma DisjointPrepend(s: Section, later: Result<Sections, PatchError>, more: set<Path>)
    ensures var all := Prepend(OneSection(s), later);
            all.Ok? ==> (PathsOf(all.value.plans) !! more <==>
                        s.plan.path !in more && PathsOf(later.value.plans) !! more)
  {
    hide PathsOf;
    if later.Ok? {
      PathsOfPrepend(s.plan, later.value.plans);
    }
  }

  // ---------------------------------------------------------------- what a prepared patch is

  /**
   * What a plan takes from its header and the snapshot: it is for the new path, or for the old one if there is no new
   * path; its pre-image is what the old file holds there; and the file is missing exactly where it is to be created.
   */
  predicate PlannedFrom(plan: PatchFilePlan, oldPath: Option<Path>, newPath: Option<Path>, files: Files) {
    match oldPath
    case None =>
      newPath == Some(plan.path) && plan.operation == Create && plan.preImage == None && plan.path !in files
    case Some(from) =>
      && plan.path == (if newPath == None then from else newPath.value)
      && plan.operation == (if newPath == None then Delete else Modify)
      && plan.preImage == Lookup(files, from)
      && (newPath == None || newPath == oldPath ==> from in files)
  }

  /** Each plan is well formed, no two share a path, and each is planned from the snapshot. */
  ghost predicate Sound(plans: seq<PatchFilePlan>, files: Files) {
    && WellFormed(plans)
    && forall i :: 0 <= i < |plans| ==> Planned(plans[i], files)
  }

  ghost predicate Planned(plan: PatchFilePlan, files: Files) {
    exists oldPath, newPath :: PlannedFrom(plan, oldPath, newPath, files)
  }

  /** The plan of a section is planned from the paths in its header, and its images hold the two sides of its text. */
  lemma SectionIsSound(lines: seq<string>, files: Files, seen: set<Path>)
    requires lines != [] && OldHeader(lines[0]) && ParseSection(lines, files, seen).Ok?
    ensures ReadHeader(lines, files, seen).Ok?
    ensures var header, s := ReadHeader(lines, files, seen).value, ParseSection(lines, files, seen).value;
            && PlannedFrom(s.plan, header.oldPath, header.newPath, files)
            && (s.plan.preImage.Some? ==> Utf8.Decode(s.plan.preImage.value) == Some(Side(s.hunk, '-')))
            && (s.plan.postImage.Some? ==> s.plan.postImage.value == Utf8.Encode(Side(s.hunk, '+')))
    ensures Sound([ParseSection(lines, files, seen).value.plan], files)
  {
    hide OldHeader, NewHeader, ParsePath, DropNewlines, ScanHunk, Side;
    var header, s := ReadHeader(lines, files, seen).value, ParseSection(lines, files, seen).value;
    assert PlannedFrom(s.plan, header.oldPath, header.newPath, files);
  }

  lemma {:induction false} SectionsAreSound(lines: seq<string>, files: Files, seen: set<Path>)
    requires ParseSections(lines, files, seen).Ok?
    ensures Sound(ParseSections(lines, files, seen).value.plans, files)
    ensures forall i :: 0 <= i < |ParseSections(lines, files, seen).value.plans| ==>
              ParseSections(lines, files, seen).value.plans[i].path !in seen
    decreases |lines|
  {
    hide OldHeader, ParseSection, WellFormedPlan;
    if lines == [] {
    } else if !OldHeader(lines[0]) {
      SectionsAreSound(lines[1..], files, seen);
    } else {
      var s := ParseSection(lines, files, seen).value;
      var seen' := seen + {s.plan.path};
      SectionFirst(lines, files, seen, s);
      SectionIsSound(lines, files, seen);
      SectionsAreSound(s.rest, files, seen');
      SoundPrepend(s.plan, ParseSections(s.rest, files, seen').value.plans, files, seen);
    }
  }

  lemma SoundPrepend(plan: PatchFilePlan, plans: seq<PatchFilePlan>, files: Files, seen: set<Path>)
    requires Sound([plan], files) && Sound(plans, files)
    requires plan.path !in seen
    requires forall i :: 0 <= i < |plans| ==> plans[i].path !in seen + {plan.path}
    ensures Sound([plan] + plans, files)
    ensures forall i :: 0 <= i < |[plan] + plans| ==> ([plan] + plans)[i].path !in seen
  {
    hide WellFormedPlan, Planned;
    var all := [plan] + plans;
    assert WellFormedPlan([plan][0]) && Planned([plan][0], files);
    assert [plan][0] == plan;
    forall i | 0 <= i < |all|
      ensures WellFormedPlan(all[i]) && all[i].path !in seen && Planned(all[i], files)
    {
      if i > 0 {
        assert all[i] == plans[i - 1];
      } else {
        assert all[0] == [plan][0];
      }
    }
    forall i, j | 0 <= i < j < |all| ensures all[i].path != all[j].path {
      assert all[j] == plans[j - 1];
      if i > 0 {
        assert all[i] == plans[i - 1];
      }
    }
  }

  /**
   * Whatever diff it is given, `prepare` hands on only sound plans, at least one, and facts that tell how many there
   * are and whether a path among theirs belongs to the tests or is sensitive.
   */
  lemma PreparedIsSound(diff: Bytes, files: Files)
    requires Prepared(diff, files).Ok?
    ensures var p := Prepared(diff, files).value;
            && p.files != [] && Sound(p.files, files)
            && p.facts.fileCount == |p.files|
            && (p.facts.touchesTestAssets <==>
                exists i :: 0 <= i < |p.files|
                            && (StartsWith(p.files[i].path, "tests/") || EndsWith(p.files[i].path, "_test.py")
                                || EndsWith(p.files[i].path, "/conftest.py")))
            && (p.facts.touchesSensitivePaths <==>
                exists i :: 0 <= i < |p.files|
                            && (StartsWith(p.files[i].path, "harness-data/") || StartsWith(p.files[i].path, ".env")
                                || EndsWith(p.files[i].path, ".pem") || EndsWith(p.files[i].path, ".key")))
  {
    hide ParseSections, Sound, Utf8.Decode, SplitLines, StartsWith, EndsWith;
    var text := Utf8.Decode(diff).value;
    SectionsAreSound(SplitLines(text), files, {});
    FactsByNames(ParseSections(SplitLines(text), files, {}).value);
  }

  lemma FactsByNames(s: Sections)
    ensures FactsOf(s).touchesTestAssets <==>
            exists i :: 0 <= i < |s.plans|
                        && (StartsWith(s.plans[i].path, "tests/") || EndsWith(s.plans[i].path, "_test.py")
                            || EndsWith(s.plans[i].path, "/conftest.py"))
    ensures FactsOf(s).touchesSensitivePaths <==>
            exists i :: 0 <= i < |s.plans|
                        && (StartsWith(s.plans[i].path, "harness-data/") || StartsWith(s.plans[i].path, ".env")
                            || EndsWith(s.plans[i].path, ".pem") || EndsWith(s.plans[i].path, ".key"))
  {
    hide StartsWith, EndsWith;
    forall i | 0 <= i < |s.plans|
      ensures TestAsset(s.plans[i].path) <==>
              StartsWith(s.plans[i].path, "tests/") || EndsWith(s.plans[i].path, "_test.py")
              || EndsWith(s.plans[i].path, "/conftest.py")
      ensures SensitivePath(s.plans[i].path) <==>
              StartsWith(s.plans[i].path, "harness-data/") || StartsWith(s.plans[i].path, ".env")
              || EndsWith(s.plans[i].path, ".pem") || EndsWith(s.plans[i].path, ".key")
    {
    }
  }

  // ---------------------------------------------------------------- two diffs

  function SumFacts(a: PatchFacts, b: PatchFacts): PatchFacts {
    PatchFacts(a.fileCount + b.fileCount, a.addedLines + b.addedLines, a.deletedLines + b.deletedLines,
               a.touchesTestAssets || b.touchesTestAssets, a.touchesSensitivePaths || b.touchesSensitivePaths)
  }

  lemma FactsOfAppend(a: Sections, b: Sections)
    ensures FactsOf(Sections(a.plans + b.plans, a.added + b.added, a.deleted + b.deleted))
            == SumFacts(FactsOf(a), FactsOf(b))
  {
    hide TestAsset, SensitivePath;
    var all := a.plans + b.plans;
    assert forall i :: 0 <= i < |a.plans| ==> all[i] == a.plans[i];
    assert forall i :: 0 <= i < |b.plans| ==> all[|a.plans| + i] == b.plans[i];
    forall i | 0 <= i < |b.plans| && TestAsset(b.plans[i].path)
      ensures TestAsset(all[|a.plans| + i].path)
    {
    }
    forall i | 0 <= i < |b.plans| && SensitivePath(b.plans[i].path)
      ensures SensitivePath(all[|a.plans| + i].path)
    {
    }
  }

  lemma {:induction false} HeaderStaysWhole(s: string, n: nat)
    requires n <= |s| && NoBreak(s[..n])
    ensures LineEnd(s) >= n
  {
    if n > 0 {
      assert s[..n][0] == s[0];
      assert s[1..][..n - 1] == s[..n][1..];
      HeaderStaysWhole(s[1..], n - 1);
    }
  }

  lemma StartsAtHeader(d: string)
    requires StartsWith(d, "--- ")
    ensures SplitLines(d) != [] && OldHeader(SplitLines(d)[0])
  {
    assert d[..4] == "--- ";
    HeaderStaysWhole(d, 4);
    var first := d[..LineEnd(d)];
    assert first[..4] == "--- ";
    assert SplitLines(d)[0] == first;
  }

  lemma AcceptedText(d: string, files: Files)
    requires PreparedText(d, files).Ok?
    ensures '\r' !in d && EndsWith(d, "\n") && EndsInNewline(d)
    ensures PreparedText(d, files) == PrepareLines(SplitLines(d), files)
  {
    hide PrepareLines;
    Utf8.AsciiInEncode(d, '\r');
    PreparedTextByLines(d, files);
    assert d[|d| - 1..][0] == '\n';
  }

  lemma TextOfTwo(d1: string, d2: string, files: Files)
    requires PreparedText(d1, files).Ok? && PreparedText(d2, files).Ok?
    ensures PreparedText(d1 + d2, files) == PrepareLines(SplitLines(d1) + SplitLines(d2), files)
  {
    hide PrepareLines, PreparedText, SplitLines;
    AcceptedText(d1, files);
    AcceptedText(d2, files);
    assert (d1 + d2)[|d1 + d2| - 1..] == d2[|d2| - 1..];
    PreparedTextByLines(d1 + d2, files);
    SplitAppend(d1, d2);
  }

  /**
   * Two accepted diffs, the second starting at a file header, are accepted together exactly when they name disjoint
   * files, and then give the plans of the first followed by those of the second, with summed facts.
   */
  lemma PrepareConcatenates(d1: string, d2: string, files: Files)
    requires PreparedText(d1, files).Ok? && PreparedText(d2, files).Ok?
    requires StartsWith(d2, "--- ")
    ensures var p1, p2 := PreparedText(d1, files).value, PreparedText(d2, files).value;
            if PathsOf(p1.files) !! PathsOf(p2.files)
            then PreparedText(d1 + d2, files) == Ok(PreparedPatch(p1.files + p2.files, SumFacts(p1.facts, p2.facts)))
            else PreparedText(d1 + d2, files).Err?
  {
    hide PreparedText, ParseSections, FactsOf, PathsOf, SplitLines, OldHeader;
    AcceptedText(d1, files);
    AcceptedText(d2, files);
    var l1, l2 := SplitLines(d1), SplitLines(d2);
    var s1, s2 := ParseSections(l1, files, {}).value, ParseSections(l2, files, {}).value;
    TextOfTwo(d1, d2, files);
    StartsAtHeader(d2);
    ParseSectionsAppend(l1, l2, files, {});
    ParseSectionsSeen(l2, files, {}, PathsOf(s1.plans));
    FactsOfAppend(s1, s2);
  }
}
