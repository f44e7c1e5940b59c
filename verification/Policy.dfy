/** The policy engine, the facts it is given about a prepared patch, and how its verdict grows with the patch. */
module Policy {
  import opened Base
  import opened PatchModels
  import opened PatchParser
  import Utf8

  datatype PolicyOutcome = Allow | RequireApproval | Deny

  datatype ReasonCode =
    | Allowed | TestAssetProtection | ProtectedConfig | PathSafety | BinaryUnsupported | ShellForbidden
    | CapabilityMissing | DemoEscape | PatchHardLimit | PatchRequiresApproval | SourceDelete
    | SensitivePathTouched | DependencyConfig

  datatype PolicyFacts = PolicyFacts(
    fileCount: nat,
    changedLines: nat,
    payloadBytes: nat,
    touchesTestAssets: bool,
    protectedConfig: bool,
    pathEscape: bool,
    symlink: bool,
    binary: bool,
    shell: bool,
    capabilityMissing: bool,
    demoEscape: bool,
    sourceDelete: bool,
    sensitivePath: bool,
    dependencyConfig: bool)

  const NO_FACTS := PolicyFacts(0, 0, 0, false, false, false, false, false, false, false, false, false, false, false)

  datatype PolicyDecision = PolicyDecision(outcome: PolicyOutcome, reason: ReasonCode)

  datatype Rule = Rule(matches: bool, reason: ReasonCode)

  function DenyRules(f: PolicyFacts): seq<Rule> {
    [ Rule(f.touchesTestAssets, TestAssetProtection),
      Rule(f.protectedConfig, ProtectedConfig),
      Rule(f.pathEscape || f.symlink, PathSafety),
      Rule(f.binary, BinaryUnsupported),
      Rule(f.shell, ShellForbidden),
      Rule(f.capabilityMissing, CapabilityMissing),
      Rule(f.demoEscape, DemoEscape),
      Rule(f.fileCount > 20 || f.changedLines > 2000 || f.payloadBytes > 1_048_576, PatchHardLimit) ]
  }

  function ApprovalRules(f: PolicyFacts): seq<Rule> {
    [ Rule(f.fileCount > 5 || f.changedLines > 300, PatchRequiresApproval),
      Rule(f.sourceDelete, SourceDelete),
      Rule(f.sensitivePath, SensitivePathTouched),
      Rule(f.dependencyConfig, DependencyConfig) ]
  }

  /** The reason of the first rule that matches. */
  function FirstMatch(rules: seq<Rule>): Option<ReasonCode> {
    if rules == [] then None
    else if rules[0].matches then Some(rules[0].reason)
    else FirstMatch(rules[1..])
  }

  function Evaluate(f: PolicyFacts): PolicyDecision {
    match FirstMatch(DenyRules(f))
    case Some(reason) => PolicyDecision(Deny, reason)
    case None =>
      match FirstMatch(ApprovalRules(f))
      case Some(reason) => PolicyDecision(RequireApproval, reason)
      case None => PolicyDecision(Allow, Allowed)
  }

  /** How strict a verdict is: deny over approval over allow. */
  function Severity(d: PolicyDecision): nat {
    match d.outcome
    case Allow => 0
    case RequireApproval => 1
    case Deny => 2
  }

  function Max(a: nat, b: nat): nat {
    if a < b then b else a
  }

  // ---------------------------------------------------------------- facts about a prepared patch

  datatype Mode = Real | Demo

  /** What the file system answers about a path below the workspace root. */
  datatype Tree = Tree(escapes: Path -> bool, symlink: Path -> bool)

  datatype SafetyFacts = SafetyFacts(
    pathEscape: bool, symlink: bool, binary: bool, shell: bool, capabilityMissing: bool, demoEscape: bool)

  /** A NUL among the first 8192 bytes. */
  predicate BinaryImage(image: Option<Bytes>) {
    image != None && 0 in (if |image.value| <= 8192 then image.value else image.value[..8192])
  }

  predicate Escapes(plans: seq<PatchFilePlan>, tree: Tree) {
    exists i :: 0 <= i < |plans| && tree.escapes(plans[i].path)
  }

  predicate ThroughSymlink(plans: seq<PatchFilePlan>, tree: Tree) {
    exists i :: 0 <= i < |plans| && tree.symlink(plans[i].path)
  }

  predicate BinaryPlan(plan: PatchFilePlan) {
    BinaryImage(plan.preImage) || BinaryImage(plan.postImage)
  }

  predicate Binary(plans: seq<PatchFilePlan>) {
    exists i :: 0 <= i < |plans| && BinaryPlan(plans[i])
  }

  function Resolved(plans: seq<PatchFilePlan>, tree: Tree, mode: Mode): SafetyFacts {
    SafetyFacts(Escapes(plans, tree), ThroughSymlink(plans, tree), Binary(plans), false, mode != Real, mode == Demo)
  }

  /** `WorkspacePatchSafetyResolver.resolve`: three flags raised file by file. */
  method Resolve(prepared: PreparedPatch, tree: Tree, mode: Mode) returns (facts: SafetyFacts)
    ensures facts == Resolved(prepared.files, tree, mode)
  {
    var pathEscape, symlink, binary := false, false, false;
    var plans := prepared.files;
    for i := 0 to |plans|
      invariant pathEscape == exists k :: 0 <= k < i && tree.escapes(plans[k].path)
      invariant symlink == exists k :: 0 <= k < i && tree.symlink(plans[k].path)
      invariant binary == exists k :: 0 <= k < i && BinaryPlan(plans[k])
    {
      pathEscape := pathEscape || tree.escapes(plans[i].path);
      symlink := symlink || tree.symlink(plans[i].path);
      binary := binary || BinaryPlan(plans[i]);
    }
    facts := SafetyFacts(pathEscape, symlink, binary, false, mode != Real, mode == Demo);
  }

  predicate ProtectedName(p: Path) {
    p in ["pyproject.toml", "setup.cfg", "pytest.ini", "tox.ini", ".coding-harness.toml"]
  }

  predicate DependencyName(p: Path) {
    p in ["pyproject.toml", "setup.cfg", "requirements.txt", "requirements-dev.txt", "poetry.lock", "uv.lock",
      "Pipfile", "Pipfile.lock"]
    || StartsWith(p, "requirements/")
  }

  predicate DeletesSource(plan: PatchFilePlan) {
    plan.operation == Delete && EndsWith(plan.path, ".py") && !StartsWith(plan.path, "tests/")
  }

  predicate AnyProtected(plans: seq<PatchFilePlan>) {
    exists i :: 0 <= i < |plans| && ProtectedName(plans[i].path)
  }

  predicate AnyDependency(plans: seq<PatchFilePlan>) {
    exists i :: 0 <= i < |plans| && DependencyName(plans[i].path)
  }

  predicate AnySourceDelete(plans: seq<PatchFilePlan>) {
    exists i :: 0 <= i < |plans| && DeletesSource(plans[i])
  }

  /** `policy_facts_from_prepared`. */
  function FactsFromPrepared(diff: string, prepared: PreparedPatch, safety: SafetyFacts): PolicyFacts {
    PolicyFacts(
      prepared.facts.fileCount,
      prepared.facts.addedLines + prepared.facts.deletedLines,
      |Utf8.Encode(diff)|,
      prepared.facts.touchesTestAssets,
      AnyProtected(prepared.files),
      safety.pathEscape,
      safety.symlink,
      safety.binary,
      safety.shell,
      safety.capabilityMissing,
      safety.demoEscape,
      AnySourceDelete(prepared.files),
      prepared.facts.touchesSensitivePaths,
      AnyDependency(prepared.files))
  }

  // ---------------------------------------------------------------- the verdict

  predicate AnyMatches(rules: seq<Rule>) {
    exists i :: 0 <= i < |rules| && rules[i].matches
  }

  /** Rule `i` is the first that matches. */
  predicate MatchesFirst(rules: seq<Rule>, i: nat) {
    i < |rules| && rules[i].matches && forall k :: 0 <= k < i ==> !rules[k].matches
  }

  /** The reason is that of the first rule that matches. */
  predicate ReasonFrom(rules: seq<Rule>, reason: ReasonCode) {
    exists i :: 0 <= i < |rules| && MatchesFirst(rules, i) && rules[i].reason == reason
  }

  lemma {:induction false} FirstMatchFinds(rules: seq<Rule>)
    ensures FirstMatch(rules).Some? <==> AnyMatches(rules)
    ensures FirstMatch(rules).Some? ==> ReasonFrom(rules, FirstMatch(rules).value)
  {
    if rules != [] {
      var later := rules[1..];
      FirstMatchFinds(later);
      if !rules[0].matches {
        assert forall i :: 0 < i < |rules| ==> rules[i] == later[i - 1];
        if FirstMatch(later).Some? {
          var i :| 0 <= i < |later| && MatchesFirst(later, i) && later[i].reason == FirstMatch(later).value;
          assert MatchesFirst(rules, i + 1);
        }
      } else {
        assert MatchesFirst(rules, 0);
      }
    }
  }

  /**
   * Denial exactly when a deny rule matches; approval exactly when only an approval rule does; and the reason is that
   * of the first rule of that kind that matches.
   */
  lemma VerdictByRules(f: PolicyFacts)
    ensures Evaluate(f).outcome == Deny <==> AnyMatches(DenyRules(f))
    ensures Evaluate(f).outcome == RequireApproval <==> !AnyMatches(DenyRules(f)) && AnyMatches(ApprovalRules(f))
    ensures Evaluate(f).outcome == Allow <==> Evaluate(f).reason == Allowed
    ensures Evaluate(f).outcome == Deny ==> ReasonFrom(DenyRules(f), Evaluate(f).reason)
    ensures Evaluate(f).outcome == RequireApproval ==> ReasonFrom(ApprovalRules(f), Evaluate(f).reason)
  {
    FirstMatchFinds(DenyRules(f));
    FirstMatchFinds(ApprovalRules(f));
  }

  lemma AnyDeny(f: PolicyFacts)
    ensures AnyMatches(DenyRules(f)) <==>
            f.touchesTestAssets || f.protectedConfig || f.pathEscape || f.symlink || f.binary || f.shell
            || f.capabilityMissing || f.demoEscape || f.fileCount > 20 || f.changedLines > 2000
            || f.payloadBytes > 1_048_576
  {
    var rules := DenyRules(f);
    assert AnyMatches(rules) <==>
           rules[0].matches || rules[1].matches || rules[2].matches || rules[3].matches || rules[4].matches
           || rules[5].matches || rules[6].matches || rules[7].matches;
  }

  lemma AnyApproval(f: PolicyFacts)
    ensures AnyMatches(ApprovalRules(f)) <==>
            f.fileCount > 5 || f.changedLines > 300 || f.sourceDelete || f.sensitivePath || f.dependencyConfig
  {
    var rules := ApprovalRules(f);
    assert AnyMatches(rules) <==> rules[0].matches || rules[1].matches || rules[2].matches || rules[3].matches;
  }

  /** The verdict, fact by fact. */
  lemma VerdictByFacts(f: PolicyFacts)
    ensures Evaluate(f).outcome == Deny <==>
            f.touchesTestAssets || f.protectedConfig || f.pathEscape || f.symlink || f.binary || f.shell
            || f.capabilityMissing || f.demoEscape || f.fileCount > 20 || f.changedLines > 2000
            || f.payloadBytes > 1_048_576
    ensures Evaluate(f).outcome == RequireApproval <==>
            !(f.touchesTestAssets || f.protectedConfig || f.pathEscape || f.symlink || f.binary || f.shell
              || f.capabilityMissing || f.demoEscape || f.fileCount > 20 || f.changedLines > 2000
              || f.payloadBytes > 1_048_576)
            && (f.fileCount > 5 || f.changedLines > 300 || f.sourceDelete || f.sensitivePath || f.dependencyConfig)
  {
    hide AnyMatches, DenyRules, ApprovalRules, ReasonFrom, FirstMatch;
    FirstMatchFinds(DenyRules(f));
    FirstMatchFinds(ApprovalRules(f));
    AnyDeny(f);
    AnyApproval(f);
  }

  lemma {:induction false} FirstWins(rules: seq<Rule>, i: nat)
    requires MatchesFirst(rules, i)
    ensures FirstMatch(rules) == Some(rules[i].reason)
  {
    if i > 0 {
      assert !rules[0].matches;
      assert forall k :: 0 <= k < i ==> rules[1..][k] == rules[k + 1];
      FirstWins(rules[1..], i - 1);
    }
  }

  /** Which of several facts is given as the reason: the protection of tests before everything else, and so on. */
  lemma ReasonByFacts(f: PolicyFacts)
    ensures Evaluate(f).reason ==
            if f.touchesTestAssets then TestAssetProtection
            else if f.protectedConfig then ProtectedConfig
            else if f.pathEscape || f.symlink then PathSafety
            else if f.binary then BinaryUnsupported
            else if f.shell then ShellForbidden
            else if f.capabilityMissing then CapabilityMissing
            else if f.demoEscape then DemoEscape
            else if f.fileCount > 20 || f.changedLines > 2000 || f.payloadBytes > 1_048_576 then PatchHardLimit
            else if f.fileCount > 5 || f.changedLines > 300 then PatchRequiresApproval
            else if f.sourceDelete then SourceDelete
            else if f.sensitivePath then SensitivePathTouched
            else if f.dependencyConfig then DependencyConfig
            else Allowed
  {
    hide FirstMatch;
    VerdictByFacts(f);
    VerdictByRules(f);
    var deny, approval := DenyRules(f), ApprovalRules(f);
    if Evaluate(f).outcome == Deny {
      var i :| 0 <= i < |deny| && MatchesFirst(deny, i);
      FirstWins(deny, i);
      WinningDenial(f, i);
    } else if Evaluate(f).outcome == RequireApproval {
      var i :| 0 <= i < |approval| && MatchesFirst(approval, i);
      FirstWins(approval, i);
      WinningApproval(f, i);
    }
  }

  lemma WinningDenial(f: PolicyFacts, i: nat)
    requires MatchesFirst(DenyRules(f), i)
    ensures DenyRules(f)[i].reason ==
            if f.touchesTestAssets then TestAssetProtection
            else if f.protectedConfig then ProtectedConfig
            else if f.pathEscape || f.symlink then PathSafety
            else if f.binary then BinaryUnsupported
            else if f.shell then ShellForbidden
            else if f.capabilityMissing then CapabilityMissing
            else if f.demoEscape then DemoEscape
            else PatchHardLimit
  {
    var rules := DenyRules(f);
    assert rules[0].matches ==> i <= 0;
    assert rules[1].matches ==> i <= 1;
    assert rules[2].matches ==> i <= 2;
    assert rules[3].matches ==> i <= 3;
    assert rules[4].matches ==> i <= 4;
    assert rules[5].matches ==> i <= 5;
    assert rules[6].matches ==> i <= 6;
  }

  lemma WinningApproval(f: PolicyFacts, i: nat)
    requires MatchesFirst(ApprovalRules(f), i)
    ensures ApprovalRules(f)[i].reason ==
            if f.fileCount > 5 || f.changedLines > 300 then PatchRequiresApproval
            else if f.sourceDelete then SourceDelete
            else if f.sensitivePath then SensitivePathTouched
            else DependencyConfig
  {
    var rules := ApprovalRules(f);
    assert rules[0].matches ==> i <= 0;
    assert rules[1].matches ==> i <= 1;
    assert rules[2].matches ==> i <= 2;
  }

  /** `g` reports everything `f` does, and perhaps more. */
  predicate AtLeast(g: PolicyFacts, f: PolicyFacts) {
    && g.fileCount >= f.fileCount && g.changedLines >= f.changedLines && g.payloadBytes >= f.payloadBytes
    && (f.touchesTestAssets ==> g.touchesTestAssets) && (f.protectedConfig ==> g.protectedConfig)
    && (f.pathEscape ==> g.pathEscape) && (f.symlink ==> g.symlink) && (f.binary ==> g.binary) && (f.shell ==> g.shell)
    && (f.capabilityMissing ==> g.capabilityMissing) && (f.demoEscape ==> g.demoEscape)
    && (f.sourceDelete ==> g.sourceDelete) && (f.sensitivePath ==> g.sensitivePath)
    && (f.dependencyConfig ==> g.dependencyConfig)
  }

  lemma RulesGrow(f: PolicyFacts, g: PolicyFacts)
    requires AtLeast(g, f)
    ensures AnyMatches(DenyRules(f)) ==> AnyMatches(DenyRules(g))
    ensures AnyMatches(ApprovalRules(f)) ==> AnyMatches(ApprovalRules(g))
  {
    if AnyMatches(DenyRules(f)) {
      var i :| 0 <= i < |DenyRules(f)| && DenyRules(f)[i].matches;
      assert DenyRules(g)[i].matches;
    }
    if AnyMatches(ApprovalRules(f)) {
      var i :| 0 <= i < |ApprovalRules(f)| && ApprovalRules(f)[i].matches;
      assert ApprovalRules(g)[i].matches;
    }
  }

  /** More facts never soften the verdict. */
  lemma MoreFactsNoMoreLenient(f: PolicyFacts, g: PolicyFacts)
    requires AtLeast(g, f)
    ensures Severity(Evaluate(g)) >= Severity(Evaluate(f))
  {
    hide AnyMatches, Evaluate;
    VerdictByRules(f);
    VerdictByRules(g);
    RulesGrow(f, g);
  }

  /** Actions that are not patches are evaluated on no facts, and allowed. */
  lemma NoFactsAllowed()
    ensures Evaluate(NO_FACTS) == PolicyDecision(Allow, Allowed)
  {
    VerdictByRules(NO_FACTS);
  }

  /** The facts of two patches together. */
  function Join(f: PolicyFacts, g: PolicyFacts): PolicyFacts {
    PolicyFacts(
      f.fileCount + g.fileCount, f.changedLines + g.changedLines, f.payloadBytes + g.payloadBytes,
      f.touchesTestAssets || g.touchesTestAssets, f.protectedConfig || g.protectedConfig,
      f.pathEscape || g.pathEscape, f.symlink || g.symlink, f.binary || g.binary, f.shell || g.shell,
      f.capabilityMissing || g.capabilityMissing, f.demoEscape || g.demoEscape, f.sourceDelete || g.sourceDelete,
      f.sensitivePath || g.sensitivePath, f.dependencyConfig || g.dependencyConfig)
  }

  /** The sums of a joint patch stay within the limits that ask for approval or refuse. */
  predicate WithinLimits(f: PolicyFacts) {
    f.fileCount <= 5 && f.changedLines <= 300 && f.payloadBytes <= 1_048_576
  }

  /** Joining facts gives at least the stricter verdict, and exactly that while the sums stay within the limits. */
  lemma JointVerdict(f: PolicyFacts, g: PolicyFacts)
    ensures Severity(Evaluate(Join(f, g))) >= Max(Severity(Evaluate(f)), Severity(Evaluate(g)))
    ensures WithinLimits(Join(f, g)) ==> Severity(Evaluate(Join(f, g)))
                                         == Max(Severity(Evaluate(f)), Severity(Evaluate(g)))
  {
    hide Evaluate;
    MoreFactsNoMoreLenient(f, Join(f, g));
    MoreFactsNoMoreLenient(g, Join(f, g));
    if WithinLimits(Join(f, g)) {
      VerdictByRules(f);
      VerdictByRules(g);
      VerdictByRules(Join(f, g));
      JointRules(f, g);
    }
  }

  lemma JointRules(f: PolicyFacts, g: PolicyFacts)
    requires WithinLimits(Join(f, g))
    ensures AnyMatches(DenyRules(Join(f, g))) ==> AnyMatches(DenyRules(f)) || AnyMatches(DenyRules(g))
    ensures AnyMatches(ApprovalRules(Join(f, g))) ==> AnyMatches(ApprovalRules(f)) || AnyMatches(ApprovalRules(g))
  {
    var both := Join(f, g);
    if AnyMatches(DenyRules(both)) {
      var i :| 0 <= i < |DenyRules(both)| && DenyRules(both)[i].matches;
      assert DenyRules(f)[i].matches || DenyRules(g)[i].matches;
    }
    if AnyMatches(ApprovalRules(both)) {
      var i :| 0 <= i < |ApprovalRules(both)| && ApprovalRules(both)[i].matches;
      assert ApprovalRules(f)[i].matches || ApprovalRules(g)[i].matches;
    }
  }
}
