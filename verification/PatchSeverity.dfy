/** A patch that contains another is never judged more leniently. */
module PatchSeverity {
  import opened Base
  import opened PatchModels
  import opened PatchParser
  import opened Policy
  import PatchConcat
  import Utf8

  /** The facts the harness puts before the policy engine for a diff it could prepare. */
  function FactsOfDiff(diff: string, files: Files, tree: Tree, mode: Mode): PolicyFacts
    requires PreparedText(diff, files).Ok?
  {
    var p := PreparedText(diff, files).value;
    FactsFromPrepared(diff, p, Resolved(p.files, tree, mode))
  }

  lemma AnyOfAppend<T>(a: seq<T>, b: seq<T>, p: T -> bool)
    ensures (exists i :: 0 <= i < |a + b| && p((a + b)[i])) <==>
            (exists i :: 0 <= i < |a| && p(a[i])) || (exists i :: 0 <= i < |b| && p(b[i]))
  {
    forall i | 0 <= i < |a| && p(a[i]) ensures p((a + b)[i]) {
    }
    forall i | 0 <= i < |b| && p(b[i]) ensures p((a + b)[|a| + i]) {
      assert (a + b)[|a| + i] == b[i];
    }
  }

  lemma NamesOfAppend(a: seq<PatchFilePlan>, b: seq<PatchFilePlan>)
    ensures AnyProtected(a + b) == (AnyProtected(a) || AnyProtected(b))
    ensures AnyDependency(a + b) == (AnyDependency(a) || AnyDependency(b))
    ensures AnySourceDelete(a + b) == (AnySourceDelete(a) || AnySourceDelete(b))
    ensures Binary(a + b) == (Binary(a) || Binary(b))
  {
    hide ProtectedName, DependencyName, DeletesSource, BinaryPlan;
    AnyOfAppend(a, b, (p: PatchFilePlan) => ProtectedName(p.path));
    AnyOfAppend(a, b, (p: PatchFilePlan) => DependencyName(p.path));
    AnyOfAppend(a, b, (p: PatchFilePlan) => DeletesSource(p));
    AnyOfAppend(a, b, (p: PatchFilePlan) => BinaryPlan(p));
  }

  lemma TreeOfAppend(a: seq<PatchFilePlan>, b: seq<PatchFilePlan>, tree: Tree)
    ensures Escapes(a + b, tree) == (Escapes(a, tree) || Escapes(b, tree))
    ensures ThroughSymlink(a + b, tree) == (ThroughSymlink(a, tree) || ThroughSymlink(b, tree))
  {
    AnyOfAppend(a, b, (p: PatchFilePlan) => tree.escapes(p.path));
    AnyOfAppend(a, b, (p: PatchFilePlan) => tree.symlink(p.path));
  }

  /** The facts of two diffs accepted together are the facts of each, joined. */
  lemma FactsOfTwo(d1: string, d2: string, files: Files, tree: Tree, mode: Mode)
    requires PreparedText(d1, files).Ok? && PreparedText(d2, files).Ok?
    requires StartsWith(d2, "--- ")
    requires PathsOf(PreparedText(d1, files).value.files) !! PathsOf(PreparedText(d2, files).value.files)
    ensures PreparedText(d1 + d2, files).Ok?
    ensures FactsOfDiff(d1 + d2, files, tree, mode) == Policy.Join(FactsOfDiff(d1, files, tree, mode),
            FactsOfDiff(d2, files, tree, mode))
  {
    hide PreparedText, AnyProtected, AnyDependency, AnySourceDelete, Binary, Escapes, ThroughSymlink, Utf8.Encode,
         PathsOf;
    PatchConcat.PrepareConcatenates(d1, d2, files);
    var p1, p2 := PreparedText(d1, files).value, PreparedText(d2, files).value;
    NamesOfAppend(p1.files, p2.files);
    TreeOfAppend(p1.files, p2.files, tree);
    Utf8.EncodeAppend(d1, d2);
  }

  /**
   * Two accepted diffs about different files, written one after the other, are judged at least as strictly as the
   * stricter of the two, and exactly so while the summed sizes stay within the limits.
   */
  lemma LargerPatchNoMoreLenient(d1: string, d2: string, files: Files, tree: Tree, mode: Mode)
    requires PreparedText(d1, files).Ok? && PreparedText(d2, files).Ok?
    requires StartsWith(d2, "--- ")
    requires PathsOf(PreparedText(d1, files).value.files) !! PathsOf(PreparedText(d2, files).value.files)
    ensures PreparedText(d1 + d2, files).Ok?
    ensures var f1, f2, f := FactsOfDiff(d1, files, tree, mode), FactsOfDiff(d2, files, tree, mode),
            FactsOfDiff(d1 + d2, files, tree, mode);
            && Severity(Evaluate(f)) >= Max(Severity(Evaluate(f1)), Severity(Evaluate(f2)))
            && (WithinLimits(f) ==> Severity(Evaluate(f)) == Max(Severity(Evaluate(f1)), Severity(Evaluate(f2))))
  {
    hide PreparedText, Evaluate, FactsOfDiff, Policy.Join, WithinLimits, PathsOf;
    FactsOfTwo(d1, d2, files, tree, mode);
    JointVerdict(FactsOfDiff(d1, files, tree, mode), FactsOfDiff(d2, files, tree, mode));
  }

  // ---------------------------------------------------------------- the verdict on a diff, from its files alone

  /** Some plan's file has a NUL among the first 8192 bytes of its old or its new image. */
  ghost predicate HoldsNul(plans: seq<PatchFilePlan>) {
    exists i, k :: 0 <= i < |plans| && 0 <= k < 8192
                   && (NulAt(plans[i].preImage, k) || NulAt(plans[i].postImage, k))
  }

  predicate NulAt(image: Option<Bytes>, k: nat) {
    image.Some? && k < |image.value| && image.value[k] == 0
  }

  lemma BinaryExactly(plans: seq<PatchFilePlan>)
    ensures Binary(plans) <==> HoldsNul(plans)
  {
    forall i | 0 <= i < |plans|
      ensures BinaryPlan(plans[i]) <==>
              exists k :: 0 <= k < 8192 && (NulAt(plans[i].preImage, k) || NulAt(plans[i].postImage, k))
    {
      BinaryImageExactly(plans[i].preImage);
      BinaryImageExactly(plans[i].postImage);
    }
    if Binary(plans) {
      var i :| 0 <= i < |plans| && BinaryPlan(plans[i]);
      var k :| 0 <= k < 8192 && (NulAt(plans[i].preImage, k) || NulAt(plans[i].postImage, k));
    }
  }

  lemma BinaryImageExactly(image: Option<Bytes>)
    ensures BinaryImage(image) <==> exists k :: 0 <= k < 8192 && NulAt(image, k)
  {
    if image.Some? {
      var seen := if |image.value| <= 8192 then image.value else image.value[..8192];
      if BinaryImage(image) {
        var k :| 0 <= k < |seen| && seen[k] == 0;
        assert NulAt(image, k);
      }
      if k :| 0 <= k < 8192 && NulAt(image, k) {
        assert seen[k] == 0;
      }
    }
  }

  ghost predicate NamesTests(plans: seq<PatchFilePlan>) {
    exists i :: 0 <= i < |plans|
                && (StartsWith(plans[i].path, "tests/") || EndsWith(plans[i].path, "_test.py")
                    || EndsWith(plans[i].path, "/conftest.py"))
  }

  ghost predicate NamesConfig(plans: seq<PatchFilePlan>) {
    exists i :: 0 <= i < |plans|
                && plans[i].path in {"pyproject.toml", "setup.cfg", "pytest.ini", "tox.ini", ".coding-harness.toml"}
  }

  ghost predicate LeadsOutside(plans: seq<PatchFilePlan>, tree: Tree) {
    exists i :: 0 <= i < |plans| && (tree.escapes(plans[i].path) || tree.symlink(plans[i].path))
  }

  ghost predicate NamesDependencies(plans: seq<PatchFilePlan>) {
    exists i :: 0 <= i < |plans|
                && (StartsWith(plans[i].path, "requirements/")
                    || plans[i].path in {"pyproject.toml", "setup.cfg", "requirements.txt", "requirements-dev.txt",
                                         "poetry.lock", "uv.lock", "Pipfile", "Pipfile.lock"})
  }

  ghost predicate DeletesPython(plans: seq<PatchFilePlan>) {
    exists i :: 0 <= i < |plans|
                && plans[i].operation == Delete && EndsWith(plans[i].path, ".py")
                && !StartsWith(plans[i].path, "tests/")
  }

  ghost predicate NamesSecrets(plans: seq<PatchFilePlan>) {
    exists i :: 0 <= i < |plans|
                && (StartsWith(plans[i].path, "harness-data/") || StartsWith(plans[i].path, ".env")
                    || EndsWith(plans[i].path, ".pem") || EndsWith(plans[i].path, ".key"))
  }

  lemma FactsOfPlans(diff: string, files: Files, tree: Tree, mode: Mode)
    requires PreparedText(diff, files).Ok?
    ensures var p, f := PreparedText(diff, files).value, FactsOfDiff(diff, files, tree, mode);
            && f.fileCount == |p.files| && f.changedLines == p.facts.addedLines + p.facts.deletedLines
            && f.payloadBytes == |Utf8.Encode(diff)|
            && (f.touchesTestAssets <==> NamesTests(p.files)) && (f.protectedConfig <==> NamesConfig(p.files))
            && (f.pathEscape || f.symlink <==> LeadsOutside(p.files, tree)) && (f.binary <==> HoldsNul(p.files))
            && !f.shell && (f.capabilityMissing <==> mode == Demo) && (f.demoEscape <==> mode == Demo)
            && (f.sourceDelete <==> DeletesPython(p.files)) && (f.sensitivePath <==> NamesSecrets(p.files))
            && (f.dependencyConfig <==> NamesDependencies(p.files))
  {
    hide Prepared, StartsWith, EndsWith, Binary, HoldsNul, Utf8.Encode;
    var p := PreparedText(diff, files).value;
    PatchConcat.PreparedIsSound(Utf8.Encode(diff), files);
    BinaryExactly(p.files);
    NamesExactly(p.files);
  }

  lemma NamesExactly(plans: seq<PatchFilePlan>)
    ensures AnyProtected(plans) <==> NamesConfig(plans)
    ensures AnyDependency(plans) <==> NamesDependencies(plans)
  {
    hide StartsWith;
  }

  /**
   * The verdict on an accepted diff, from the files it plans. It is refused for the protection of tests exactly when it
   * names a test asset, whatever else it does; and refused at all exactly when it does that, names a protected
   * configuration file, leads out of the workspace or through a symlink, holds a NUL, is not to be carried out for
   * real, or is too large. Otherwise a human is asked exactly when it is large, deletes a Python source, or names a
   * secret or a dependency file.
   */
  lemma VerdictOfDiff(diff: string, files: Files, tree: Tree, mode: Mode)
    requires PreparedText(diff, files).Ok?
    ensures var p, d := PreparedText(diff, files).value, Evaluate(FactsOfDiff(diff, files, tree, mode));
            var plans, changed := p.files, p.facts.addedLines + p.facts.deletedLines;
            && (d == PolicyDecision(Deny, TestAssetProtection) <==> NamesTests(plans))
            && (d.outcome == Deny <==>
                NamesTests(plans) || NamesConfig(plans) || LeadsOutside(plans, tree) || HoldsNul(plans) || mode == Demo
                || |plans| > 20 || changed > 2000 || |Utf8.Encode(diff)| > 1_048_576)
            && (d.outcome == RequireApproval <==>
                d.outcome != Deny
                && (|plans| > 5 || changed > 300 || DeletesPython(plans) || NamesSecrets(plans)
                    || NamesDependencies(plans)))
  {
    hide PreparedText, Evaluate, FactsOfDiff, NamesTests, NamesConfig, LeadsOutside, HoldsNul, DeletesPython,
         NamesSecrets, NamesDependencies, Utf8.Encode;
    FactsOfPlans(diff, files, tree, mode);
    VerdictByFacts(FactsOfDiff(diff, files, tree, mode));
    ReasonByFacts(FactsOfDiff(diff, files, tree, mode));
  }
}
