/** Whether the verdict that a trace shows for a test is the verdict of the parser. */
module TraceVerdicts {
  import opened Base
  import opened Lines
  import opened TestRunner
  import opened PytestParser
  import opened Trace
  import HarnessOutcomes
  import Utf8

  const PASSED_TEXT := "pytest passed"
  const UNAVAILABLE_TEXT := "pytest environment unavailable"
  const UNRELIABLE_TEXT := "pytest output was not reliably parseable"
  const COLLECTION_TEXT := "pytest collection failed"

  /** Case folding leaves lower-case letters and spaces as they are. */
  ghost predicate KeepsLowerCase(fold: string -> string) {
    fold(PASSED_TEXT) == PASSED_TEXT && fold(UNAVAILABLE_TEXT) == UNAVAILABLE_TEXT
    && fold(UNRELIABLE_TEXT) == UNRELIABLE_TEXT && fold(COLLECTION_TEXT) == COLLECTION_TEXT
  }

  /** What a trace should show for a parsed outcome; nothing can be shown for an unreliable one. */
  function Verdict(outcome: ParsedOutcome): Option<TestRunOutcome> {
    match outcome
    case ParsedPassed => Some(Passed)
    case ParsedFailed => Some(Failed)
    case CollectionError => Some(Failed)
    case _ => None
  }

  /** The texts that the trace builder does not take for a failure. */
  predicate Reserved(text: string) {
    text == "" || text == PASSED_TEXT || text == UNAVAILABLE_TEXT || text == UNRELIABLE_TEXT
  }

  lemma CollectionIsNotReserved()
    ensures !Reserved(COLLECTION_TEXT) && UNAVAILABLE_TEXT != PASSED_TEXT && UNRELIABLE_TEXT != PASSED_TEXT
  {
    assert COLLECTION_TEXT[7] == 'c' && PASSED_TEXT[7] == 'p' && UNAVAILABLE_TEXT[7] == 'e'
      && UNRELIABLE_TEXT[7] == 'o';
  }

  /**
   * The builder goes by the summary alone. It shows the parser's verdict exactly unless a failing test's own message
   * reads, case apart, like one of the reserved texts.
   */
  lemma VerdictShownExactly(raw: LaunchResult, run: TestRun, rules: TextRules, fold: string -> string)
    requires KeepsLowerCase(fold) && ParsePytest(raw, run, rules).Some?
    ensures var p := ParsePytest(raw, run, rules).value;
            TestOutcome(p.summary, fold) == Verdict(p.outcome) <==>
              !(p.outcome == ParsedFailed && Reserved(fold(p.summary)))
  {
    hide SafeSummary, CollectionFailed, SortedSet, OutputText;
    CollectionIsNotReserved();
  }

  /** A failing run whose one failure reads `pytest passed` is shown as passed. */
  lemma FailureShownAsPassed(run: TestRun, raw: LaunchResult, rules: TextRules, fold: string -> string, node: string)
    requires KeepsLowerCase(fold)
    requires run.outcome == Failed && !raw.stdoutTruncated && !raw.stderrTruncated
    requires rules.failures(OutputText(raw, rules)) == [Failure(node, PASSED_TEXT)]
            && rules.normalize(PASSED_TEXT) == PASSED_TEXT
    ensures var r := ParsePytest(raw, run, rules);
            r.Some? && r.value.outcome == ParsedFailed && TestOutcome(r.value.summary, fold) == Some(Passed)
  {
    hide SortedSet, OutputText, CollectionFailed, SafeSummary, FirstDetail, Nodes;
    OneDetail(node);
    PassedTextIsSafe();
  }

  lemma OneDetail(node: string)
    ensures FirstDetail([Failure(node, PASSED_TEXT)]) == PASSED_TEXT
  {
    assert |PASSED_TEXT| == 13;
  }

  lemma PassedTextIsSafe()
    ensures SafeSummary(PASSED_TEXT)
  {
    hide Utf8.Encode;
    HarnessOutcomes.EncodeLength(PASSED_TEXT);
  }

  const FAILED_LINE := "FAILED test_a.py::test_a - pytest passed"

  /**
   * What the parsers' patterns find in this one line of output, and what lenient decoding makes of well-formed text.
   */
  ghost predicate ReadsFailedLine(rules: TextRules) {
    && (forall text: string :: rules.decode(Utf8.Encode(text)) == text)
    && rules.failures(FAILED_LINE + "\n") == [Failure("test_a.py::test_a", PASSED_TEXT)]
    && rules.normalize(PASSED_TEXT) == PASSED_TEXT
  }

  /** A run that failed with this line of output and exit code 1 is shown as passed. */
  lemma FailedLineShownAsPassed(rules: TextRules, fold: string -> string, d: Digest)
    requires KeepsLowerCase(fold) && ReadsFailedLine(rules)
    ensures var e := Evidence(1, LaunchResult(Completed, Some(1), Utf8.Encode(FAILED_LINE), [], false, false), d, d, d);
            var r := ParsePytest(e.launch, RunOf(PostPatch, e, rules), rules);
            r.Some? && r.value.outcome == ParsedFailed && TestOutcome(r.value.summary, fold) == Some(Passed)
  {
    hide ParsePytest, TestOutcome, Utf8.Encode, Blank;
    var e := Evidence(1, LaunchResult(Completed, Some(1), Utf8.Encode(FAILED_LINE), [], false, false), d, d, d);
    OutputOfFailedLine();
    assert e.launch.stdout + e.launch.stderr == Utf8.Encode(FAILED_LINE);
    assert !Blank(FAILED_LINE) by { LineIsNotBlank(); }
    FailureShownAsPassed(RunOf(PostPatch, e, rules), e.launch, rules, fold, "test_a.py::test_a");
  }

  lemma OutputOfFailedLine()
    ensures Utf8.Encode(FAILED_LINE) + [0x0A] + [] == Utf8.Encode(FAILED_LINE + "\n")
  {
    hide Utf8.Encode;
    Utf8.EncodeAppend(FAILED_LINE, "\n");
    Utf8.EncodeOne('\n');
    assert "\n" == ['\n'];
  }

  lemma LineIsNotBlank()
    ensures !Blank(FAILED_LINE)
  {
    var c := FAILED_LINE[0];
    assert c == 'F' && !Space(c) && c in FAILED_LINE;
  }
}
