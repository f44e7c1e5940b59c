/** `parse_pytest`, and what its verdict says about the process that produced the output. */
module PytestParser {
  import opened Base
  import opened Lines
  import opened Capture
  import opened TestRunner
  import opened PatchModels
  import WorkspaceHash
  import Utf8

  datatype ParsedOutcome = ParsedPassed | ParsedFailed | CollectionError | ParsedEnvironmentError | ParsedUnparseable

  datatype Revision = UnknownRevision | Of(digest: Digest)

  datatype ParsedTestResult = ParsedTestResult(
    runId: RunId,
    phase: TestPhase,
    outcome: ParsedOutcome,
    nodeIds: seq<string>,
    exceptionType: Option<string>,
    summary: string,
    frames: seq<string>,
    truncated: bool,
    sourceRevision: Revision)

  /** The model refuses a summary that is empty, padded, of several lines, or longer than 8192 bytes. */
  predicate SafeSummary(s: string) {
    && s != [] && !Space(s[0]) && !Space(s[|s| - 1])
    && (forall i :: 0 <= i < |s| ==> s[i] != '\r' && s[i] != '\n')
    && |Utf8.Encode(s)| <= 8192
  }

  predicate Contains(text: string, part: string) {
    exists i :: 0 <= i <= |text| && StartsWith(text[i..], part)
  }

  predicate CollectionFailed(text: string) {
    Contains(text, "ERROR collecting") || Contains(text, "SyntaxError:")
  }

  function InsertSorted(s: string, sorted: seq<string>): seq<string> {
    if sorted == [] then [s]
    else if s == sorted[0] then sorted
    else if WorkspaceHash.Less(s, sorted[0]) then [s] + sorted
    else [sorted[0]] + InsertSorted(s, sorted[1..])
  }

  /** `sorted(set(xs))`. */
  function SortedSet(xs: seq<string>): seq<string> {
    if xs == [] then [] else InsertSorted(xs[0], SortedSet(xs[1..]))
  }

  function Nodes(failures: seq<Failure>): seq<string> {
    seq(|failures|, i requires 0 <= i < |failures| => failures[i].node)
  }

  function FirstDetail(failures: seq<Failure>): string {
    if failures == [] then "pytest failure"
    else if failures[0].detail != [] then failures[0].detail
    else FirstDetail(failures[1..])
  }

  function Take<T>(xs: seq<T>, n: nat): seq<T> {
    if |xs| <= n then xs else xs[..n]
  }

  function OutputText(r: LaunchResult, rules: TextRules): string {
    rules.decode(r.stdout + [0x0A] + r.stderr)
  }

  /** `None` when the result model refuses the summary. */
  function ParsePytest(raw: LaunchResult, run: TestRun, rules: TextRules): Option<ParsedTestResult> {
    var truncated := raw.stdoutTruncated || raw.stderrTruncated;
    var text := OutputText(raw, rules);
    if run.outcome in {EnvironmentError, TimedOut, ResourceLimit, Cancelled, UnknownOutcome} then
      Some(ParsedTestResult(run.runId, run.phase, ParsedEnvironmentError, [], None, "pytest environment unavailable",
        [], truncated, UnknownRevision))
    else if truncated || run.outcome == Unparseable then
      Some(ParsedTestResult(run.runId, run.phase, ParsedUnparseable, [], None,
        "pytest output was not reliably parseable", [], truncated, UnknownRevision))
    else
      var failures := rules.failures(text);
      if failures != [] then
        var detail := FirstDetail(failures);
        var summary := rules.normalize(detail);
        if !SafeSummary(summary) then None
        else
          Some(ParsedTestResult(run.runId, run.phase, ParsedFailed, SortedSet(Nodes(failures)), rules.exception(detail),
                                summary, Take(SortedSet(rules.frames(text)), 20), false, UnknownRevision))
      else if CollectionFailed(text) then
        Some(ParsedTestResult(run.runId, run.phase, CollectionError, [], rules.exception(text),
          "pytest collection failed", [], false, UnknownRevision))
      else if run.outcome == Passed && rules.passedCount(text) then
        Some(ParsedTestResult(run.runId, run.phase, ParsedPassed, [], None, "pytest passed", [], false,
          UnknownRevision))
      else
        Some(ParsedTestResult(run.runId, run.phase, ParsedUnparseable, [], None,
          "pytest output was not reliably parseable", [], false, UnknownRevision))
  }

  /** What must be true of a test process for its output to count as passing. */
  predicate PassingEvidence(e: Evidence, rules: TextRules) {
    var text := OutputText(e.launch, rules);
    && e.launch.status == Completed && e.launch.exitCode == Some(0)
    && e.before == e.after
    && !e.launch.stdoutTruncated && !e.launch.stderrTruncated
    && HasOutput(e.launch, rules)
    && rules.failures(text) == [] && !CollectionFailed(text) && rules.passedCount(text)
  }

  /** The parser reports a pass exactly on passing evidence. */
  lemma PassedIffEvidence(phase: TestPhase, e: Evidence, rules: TextRules)
    ensures (var r := ParsePytest(e.launch, RunOf(phase, e, rules), rules); r.Some? && r.value.outcome == ParsedPassed)
            <==> PassingEvidence(e, rules)
  {
  }

  /** A run that did not end by itself is never reported as passed, failed or uncollectable. */
  lemma UnreliableIffNotEnded(phase: TestPhase, e: Evidence, rules: TextRules)
    requires e.before == e.after
    ensures var r := ParsePytest(e.launch, RunOf(phase, e, rules), rules);
            (r.Some? && r.value.outcome == ParsedEnvironmentError) <==> e.launch.status != Completed
  {
  }

  /**
   * A pass, traced back to the process and the workspace: the process ended with exit code 0, the text judged is all
   * that was read from it, and the files outside `.git` are the same before and after (if the workspace does not itself
   * lie below a directory of that name).
   */
  lemma PassTracedBack(phase: TestPhase, e: Evidence, rules: TextRules, t: Testing)
    requires Genuine(e, t)
    requires var r := ParsePytest(e.launch, RunOf(phase, e, rules), rules); r.Some? && r.value.outcome == ParsedPassed
    ensures TestedWell(e, t)
  {
    hide WorkspaceHash.StreamBelow, WorkspaceHash.FilesOf, WorkspaceHash.Sorted, CollectionFailed,
         WorkspaceHash.InGit;
    PassedIffEvidence(phase, e, rules);
    WorkspaceHash.SameHashSameFiles(t.root, t.before, t.after);
  }

  /** What goes on outside during one test run: the process, and the workspace before and after it. */
  datatype Testing = Testing(process: Option<Process>, root: Path, before: seq<WorkspaceHash.Entry>,
    after: seq<WorkspaceHash.Entry>)

  /** The evidence is what the launcher and the workspace hash make of that. */
  ghost predicate Genuine(e: Evidence, t: Testing) {
    && e.launch == Launched(t.process)
    && WorkspaceHash.Sorted(t.before) && WorkspaceHash.Sorted(t.after)
    && Some(e.before) == Sha(WorkspaceHash.StreamBelow(t.root, t.before))
    && Some(e.after) == Sha(WorkspaceHash.StreamBelow(t.root, t.after))
  }

  /** The process ended with exit code 0, all its output that was read has been judged, and no file changed. */
  ghost predicate TestedWell(e: Evidence, t: Testing) {
    && t.process.Some? && t.process.value.exitCode == Some(0)
    && e.launch.stdout == Concat(t.process.value.stdout) && e.launch.stderr == Concat(t.process.value.stderr)
    && (WorkspaceHash.InGit(t.root) || WorkspaceHash.FilesOf(t.before) == WorkspaceHash.FilesOf(t.after))
  }

  // ---------------------------------------------------------------- what is reported of a failing run

  lemma {:induction false} LessTotal(a: string, b: string)
    ensures a == b || WorkspaceHash.Less(a, b) || WorkspaceHash.Less(b, a)
  {
    if a != [] && b != [] && a[0] == b[0] {
      LessTotal(a[1..], b[1..]);
      assert a == [a[0]] + a[1..] && b == [b[0]] + b[1..];
    }
  }

  lemma {:induction false} LessTransitive(a: string, b: string, c: string)
    requires WorkspaceHash.Less(a, b) && WorkspaceHash.Less(b, c)
    ensures WorkspaceHash.Less(a, c)
  {
    if a != [] && a[0] == b[0] && b[0] == c[0] {
      LessTransitive(a[1..], b[1..], c[1..]);
    }
  }

  predicate Ascending(xs: seq<string>) {
    forall i, j :: 0 <= i < j < |xs| ==> WorkspaceHash.Less(xs[i], xs[j])
  }

  lemma {:induction false} InsertExactly(s: string, sorted: seq<string>)
    requires Ascending(sorted)
    ensures Ascending(InsertSorted(s, sorted))
    ensures forall x :: x in InsertSorted(s, sorted) <==> x == s || x in sorted
  {
    hide WorkspaceHash.Less;
    if sorted != [] && s != sorted[0] {
      var later := sorted[1..];
      LessTotal(s, sorted[0]);
      if WorkspaceHash.Less(s, sorted[0]) {
        forall j | 0 < j < |sorted| ensures WorkspaceHash.Less(s, sorted[j]) {
          LessTransitive(s, sorted[0], sorted[j]);
        }
      } else {
        InsertExactly(s, later);
        var all := InsertSorted(s, later);
        forall j | 0 <= j < |all| ensures WorkspaceHash.Less(sorted[0], all[j]) {
          assert all[j] in all;
          if all[j] != s {
            var k :| 0 <= k < |later| && later[k] == all[j];
            assert sorted[k + 1] == all[j];
          }
        }
      }
      assert forall x :: x in sorted <==> x == sorted[0] || x in later;
    }
  }

  /** `sorted(set(xs))`: the same strings, each once, in ascending order. */
  lemma {:induction false} SortedSetExactly(xs: seq<string>)
    ensures Ascending(SortedSet(xs))
    ensures forall x :: x in SortedSet(xs) <==> x in xs
  {
    if xs != [] {
      SortedSetExactly(xs[1..]);
      InsertExactly(xs[0], SortedSet(xs[1..]));
      assert forall x :: x in xs <==> x == xs[0] || x in xs[1..];
    }
  }

  /** The first failure with a detail gives it; if none has one, it is a fixed text. */
  lemma {:induction false} DetailExactly(failures: seq<Failure>)
    ensures (exists i :: 0 <= i < |failures| && failures[i].detail == FirstDetail(failures) && failures[i].detail != ""
                         && forall k :: 0 <= k < i ==> failures[k].detail == "")
            || (FirstDetail(failures) == "pytest failure"
                && forall i :: 0 <= i < |failures| ==> failures[i].detail == "")
  {
    if failures != [] && failures[0].detail == "" {
      var later := failures[1..];
      DetailExactly(later);
      assert FirstDetail(failures) == FirstDetail(later);
      if i :| 0 <= i < |later| && later[i].detail == FirstDetail(later) && later[i].detail != ""
              && forall k :: 0 <= k < i ==> later[k].detail == "" {
        assert failures[i + 1] == later[i];
        assert forall k :: 0 < k < i + 1 ==> failures[k] == later[k - 1];
      } else {
        assert forall k :: 0 < k < |failures| ==> failures[k] == later[k - 1];
      }
    }
  }

  /** The output can be judged: the process ended with some output, all of which is there. */
  predicate Judged(raw: LaunchResult, run: TestRun) {
    && run.outcome in {Passed, Failed, WorkspaceDrift}
    && !raw.stdoutTruncated && !raw.stderrTruncated
  }

  /**
   * What a parsed result says, by what the patterns find in the output: failing tests before everything else, then
   * that tests could not be collected, then that they passed if the process agrees; and otherwise nothing.
   */
  lemma OutcomeExactly(raw: LaunchResult, run: TestRun, rules: TextRules)
    ensures var r, text := ParsePytest(raw, run, rules), rules.decode(raw.stdout + [0x0A] + raw.stderr);
            r.Some? || (Judged(raw, run) && rules.failures(text) != [])
    ensures ParsePytest(raw, run, rules).Some? ==>
            var p, text := ParsePytest(raw, run, rules).value, rules.decode(raw.stdout + [0x0A] + raw.stderr);
            var failing := rules.failures(text) != [];
            var uncollected := Contains(text, "ERROR collecting") || Contains(text, "SyntaxError:");
            var reliable := Judged(raw, run);
            && p.runId == run.runId && p.phase == run.phase && p.sourceRevision == UnknownRevision
            && (p.outcome == ParsedEnvironmentError <==>
                run.outcome in {EnvironmentError, TimedOut, ResourceLimit, Cancelled, UnknownOutcome})
            && (p.outcome == ParsedFailed <==> reliable && failing)
            && (p.outcome == CollectionError <==> reliable && !failing && uncollected)
            && (p.outcome == ParsedPassed <==>
                reliable && !failing && !uncollected && run.outcome == Passed && rules.passedCount(text))
            && (p.truncated <==> p.outcome in {ParsedEnvironmentError, ParsedUnparseable}
                                 && (raw.stdoutTruncated || raw.stderrTruncated))
            && (p.outcome != ParsedFailed ==> p.nodeIds == [] && p.frames == [])
            && (p.exceptionType.Some? ==> p.outcome in {ParsedFailed, CollectionError})
  {
    hide Contains, SortedSet, SafeSummary;
  }

  /**
   * What a failing result reports: the failing tests in ascending order, each once; the normalized first detail; and
   * of the frames, in ascending order and each once, the first twenty.
   */
  lemma FailureExactly(raw: LaunchResult, run: TestRun, rules: TextRules)
    requires Judged(raw, run) && rules.failures(rules.decode(raw.stdout + [0x0A] + raw.stderr)) != []
    ensures var text := rules.decode(raw.stdout + [0x0A] + raw.stderr);
            var detail := FirstDetail(rules.failures(text));
            var r := ParsePytest(raw, run, rules);
            && (r.Some? <==> SafeSummary(rules.normalize(detail)))
            && (r.Some? ==>
                  && r.value.summary == rules.normalize(detail) && r.value.exceptionType == rules.exception(detail)
                  && Ascending(r.value.nodeIds) && Ascending(r.value.frames)
                  && (forall node :: node in r.value.nodeIds <==>
                        exists i :: 0 <= i < |rules.failures(text)| && rules.failures(text)[i].node == node)
                  && (forall frame :: frame in r.value.frames ==> frame in rules.frames(text))
                  && |r.value.frames| <= 20
                  && (forall frame :: frame in rules.frames(text) && frame !in r.value.frames ==>
                        |r.value.frames| == 20 && WorkspaceHash.Less(r.value.frames[19], frame)))
  {
    hide WorkspaceHash.Less, SortedSet, FirstDetail, SafeSummary;
    var text := rules.decode(raw.stdout + [0x0A] + raw.stderr);
    var failures, frames := rules.failures(text), SortedSet(rules.frames(text));
    SortedSetExactly(Nodes(failures));
    SortedSetExactly(rules.frames(text));
    forall node ensures node in Nodes(failures) <==> exists i :: 0 <= i < |failures| && failures[i].node == node {
      if i :| 0 <= i < |failures| && failures[i].node == node {
        assert Nodes(failures)[i] == node;
      }
    }
    TakenFirst(frames, 20);
  }

  lemma TakenFirst(xs: seq<string>, n: nat)
    requires Ascending(xs) && n > 0
    ensures Ascending(Take(xs, n)) && |Take(xs, n)| <= n
    ensures forall x :: x in Take(xs, n) ==> x in xs
    ensures forall x :: x in xs && x !in Take(xs, n) ==>
              |Take(xs, n)| == n && WorkspaceHash.Less(Take(xs, n)[n - 1], x)
  {
    hide WorkspaceHash.Less;
    assert forall k :: 0 <= k < |Take(xs, n)| ==> Take(xs, n)[k] == xs[k];
  }
}
