/**
 * The patch transaction end to end: a diff is prepared against the workspace, applied to it, and can be rolled back.
 */
module PatchTransaction {
  import opened Base
  import opened PatchModels
  import opened PatchParser
  import opened PatchRoundTrip
  import opened Workspaces
  import opened Applier
  import opened PatchLayout
  import PatchConcat
  import Rollback
  import PatchGit
  import Utf8

  /** What the file of a script holds afterwards. */
  function ResultOf(s: Script): Option<Bytes> {
    if s.operation == Delete then None else Some(Utf8.Encode(NewText(s.edits)))
  }

  /** The files after every script has been carried out, in order. */
  function ScriptsApplied(files: Files, scripts: seq<Script>): Files
    decreases |scripts|
  {
    if scripts == [] then files
    else ScriptsApplied(Put(files, scripts[0].path, ResultOf(scripts[0])), scripts[1..])
  }

  lemma {:induction false} PatchedFirst(files: Files, plan: PatchFilePlan, plans: seq<PatchFilePlan>)
    ensures Rollback.Patched(files, [plan] + plans) == Rollback.Patched(Put(files, plan.path, plan.postImage), plans)
    decreases |plans|
  {
    var all := [plan] + plans;
    if plans == [] {
      assert all[..0] == [];
      assert Rollback.Patched(files, all[..0]) == files;
    } else {
      assert all[..|all| - 1] == [plan] + plans[..|plans| - 1];
      PatchedFirst(files, plan, plans[..|plans| - 1]);
    }
  }

  lemma {:induction false} PatchedByScripts(files: Files, scripts: seq<Script>)
    ensures Rollback.Patched(files, SectionsOf(scripts).plans) == ScriptsApplied(files, scripts)
    decreases |scripts|
  {
    if scripts != [] {
      PatchedFirst(files, PlanOf(scripts[0]), SectionsOf(scripts[1..]).plans);
      PatchedByScripts(Put(files, scripts[0].path, ResultOf(scripts[0])), scripts[1..]);
    }
  }

  lemma {:induction false} ScriptsMatchFiles(files: Files, scripts: seq<Script>, seen: set<Path>)
    requires AllFit(scripts, files, seen)
    ensures Rollback.AllPre(files, SectionsOf(scripts).plans)
  {
    if scripts != [] {
      ScriptsMatchFiles(files, scripts[1..], seen + {scripts[0].path});
      var plans := SectionsOf(scripts).plans;
      assert forall i :: 0 < i < |plans| ==> plans[i] == SectionsOf(scripts[1..]).plans[i - 1];
    }
  }

  /** A patch rendered from fitting scripts is sound, passes the checks, and does to the files what the scripts say. */
  lemma RenderedPatchMeaning(scripts: seq<Script>, files: Files)
    requires AllRenderable(scripts) && NoHeaderLookalikes(scripts) && scripts != [] && AllFit(scripts, files, {})
    ensures PreparedText(Render(scripts), files).Ok?
    ensures var plans := PreparedText(Render(scripts), files).value.files;
            && WellFormed(plans) && Rollback.AllPre(files, plans)
            && Rollback.Patched(files, plans) == ScriptsApplied(files, scripts)
            && Rollback.Undone(ScriptsApplied(files, scripts), plans) == files
  {
    hide Prepared, WellFormedPlan, Render, AllFit, FactsOf;
    PrepareInvertsRendering(scripts, files);
    PatchConcat.PreparedIsSound(Utf8.Encode(Render(scripts)), files);
    PatchedByScripts(files, scripts);
    ScriptsMatchFiles(files, scripts, {});
    Rollback.UndoPatched(files, SectionsOf(scripts).plans);
  }

  /** The preparer and the executor of the harness in sequence: snapshot, prepare, apply. */
  method PrepareAndApply(diff: string, ws: Workspace)
    returns (outcome: Result<ApplyOutcome, PatchError>, plans: seq<PatchFilePlan>)
    modifies ws
    ensures outcome.Err? ==>
              && PreparedText(diff, old(ws.files)) == Err(outcome.error)
              && ws.files == old(ws.files) && ws.dirs == old(ws.dirs) && ws.writes == old(ws.writes)
    ensures outcome.Ok? ==>
              && PreparedText(diff, old(ws.files)).Ok?
              && plans == PreparedText(diff, old(ws.files)).value.files && WellFormed(plans)
    ensures outcome.Ok? && Calm(ws.world, PathsOf(plans)) && outcome.value.Applied? ==>
              ws.files == Rollback.Patched(old(ws.files), plans)
    ensures outcome.Ok? && Calm(ws.world, PathsOf(plans)) && outcome.value == ApplyFailed ==>
              Original(ws.files, old(ws.files), plans)
    ensures outcome.Ok? && Calm(ws.world, PathsOf(plans)) && SoundTree(old(ws.files), old(ws.dirs))
            && FaultFree(ws.world, old(ws.clock)) ==>
              outcome.value == Fated(ws.world, old(ws.files), old(ws.dirs), plans, true)
  {
    hide Prepared, Original, Rollback.Patched, Fated;
    plans := [];
    var prepared := Prepare(Utf8.Encode(diff), ws.files);
    if prepared.Err? {
      return Err(prepared.error), plans;
    }
    PatchConcat.PreparedIsSound(Utf8.Encode(diff), ws.files);
    plans := prepared.value.files;
    var applied := Apply(plans, true, ws);
    outcome := Ok(applied);
  }

  /** Plans whose files may be written and taken back, as far as the checks and the shape of the tree go. */
  predicate Writable(w: World, files: Files, dirs: set<Path>, plans: seq<PatchFilePlan>) {
    && NoSymlinks(w, plans) && !Rollback.AnyDirectory(dirs, plans)
    && FilesAboveGo(files, plans) && NoWrittenAbove(plans)
  }

  /** A fate that can be seen beforehand from the plans and the tree. */
  lemma FatedToApply(w: World, files: Files, dirs: set<Path>, plans: seq<PatchFilePlan>)
    requires WellFormed(plans)
    ensures Fated(w, files, dirs, plans, true).Applied? <==>
            Rollback.AllPre(files, plans) && Writable(w, files, dirs, plans)
    ensures Rollback.AllPre(files, plans) && Writable(w, files, dirs, plans) ==>
              (Rollback.AnyDirectory(DirsAfter(dirs, plans), plans) <==> !Undoable(plans))
    ensures ChecksPass(w, files, dirs, plans) ==>
              (Fated(w, files, dirs, plans, true) == Raised <==> Ensnared(files, plans))
  {
    hide WellFormedPlan, Layable, Trapped, Ensnared, FilesAboveGo, NoWrittenAbove, Undoable, Rollback.AnyDirectory,
         Rollback.AllPre;
    CheckedPasses(w, files, dirs, plans);
    if Rollback.AllPre(files, plans) && !Rollback.AnyDirectory(dirs, plans) {
      LayableExactly(files, dirs, plans);
      TrappedExactly(files, dirs, plans);
      TrappedNotLayable(files, dirs, plans);
      if Layable(files, dirs, plans) {
        UndoableExactly(files, dirs, plans);
      }
    }
  }

  /** The directories that the old images go in are there, and stay there. */
  lemma OldPlaces(files: Files, dirs: set<Path>, plans: seq<PatchFilePlan>)
    requires SoundTree(files, dirs) && Rollback.AllPre(files, plans)
    ensures Rollback.PlacesKept(DirsAfter(dirs, plans), plans)
  {
    DirsGrow(dirs, plans, |plans|, |plans|);
    assert plans[..|plans|] == plans;
  }

  /**
   * On a workspace that the scripts fit, where no call fails but by the shape of the tree: apply them, and if that
   * succeeded look at the result and take it back. Applying succeeds exactly if no target is a symlink or a directory,
   * every file above a written path is deleted earlier in the patch, and no written path lies above another. Taking it
   * back then restores the snapshot exactly if no deleted path lies above a written one.
   */
  method ApplyThenRollBack(scripts: seq<Script>, ws: Workspace)
    returns (applied: ApplyOutcome, between: Files, undone: Option<Rollback.RollbackOutcome>)
    requires AllRenderable(scripts) && NoHeaderLookalikes(scripts) && scripts != [] && AllFit(scripts, ws.files, {})
    requires FaultFree(ws.world, ws.clock) && Calm(ws.world, PathsOf(SectionsOf(scripts).plans))
    requires SoundTree(ws.files, ws.dirs)
    modifies ws
    ensures applied.Applied? <==> Writable(ws.world, old(ws.files), old(ws.dirs), SectionsOf(scripts).plans)
    ensures applied.Applied? ==>
              && between == ScriptsApplied(old(ws.files), scripts)
              && (ws.files == old(ws.files) <==> Undoable(SectionsOf(scripts).plans))
              && undone == Some(if Undoable(SectionsOf(scripts).plans)
                then Rollback.RolledBack else Rollback.RollbackRaised)
  {
    hide Prepared, Render, AllFit, FactsOf, WellFormedPlan, Fated, Writable, Undoable, DirsAfter,
         Rollback.AnyDirectory, Rollback.PlacesKept, SoundTree, FaultFree, ScriptsApplied, Rollback.Patched,
         Rollback.Undone;
    ghost var files, dirs := ws.files, ws.dirs;
    RenderedPatchMeaning(scripts, ws.files);
    PrepareInvertsRendering(scripts, ws.files);
    var prepared := Prepare(Utf8.Encode(Render(scripts)), ws.files);
    var plans := prepared.value.files;
    FatedToApply(ws.world, files, dirs, plans);
    OldPlaces(files, dirs, plans);
    applied := Apply(plans, true, ws);
    between, undone := ws.files, None;
    if applied.Applied? {
      Rollback.PatchedAt(files, plans);
      LaterFaults(ws.world, old(ws.clock), ws.clock, ws.clock);
      var outcome := Rollback.Rollback(plans, ws);
      undone := Some(outcome);
      if !Undoable(plans) {
        NotRestored(ws.files, between, files, dirs, plans);
      }
    }
  }

  /** A deleted file that lies above a written one stays deleted. */
  lemma NotRestored(now: Files, between: Files, files: Files, dirs: set<Path>, plans: seq<PatchFilePlan>)
    requires WellFormed(plans) && Rollback.AllPre(files, plans) && Rollback.AllPost(between, plans) && !Undoable(plans)
    requires Rollback.UntouchedIn(DirsAfter(dirs, plans), now, between, plans)
    ensures now != files
  {
    var k, j :| 0 <= k < |plans| && 0 <= j < |plans| && plans[k].postImage == None && plans[j].postImage != None
                && Above(plans[k].path, plans[j].path);
    DirsAfterAre(dirs, plans, plans[k].path);
    assert Lookup(now, plans[k].path) == None;
    assert WellFormedPlan(plans[k]);
  }

  /**
   * A patch whose one section names an old and a new file is answered with a conflict, unless the new file already
   * holds what the old one does: its pre-image is the old file's, and is looked for in the new one.
   */
  lemma RenamingConflicts(w: World, files: Files, dirs: set<Path>, from: Path, to: Path, edits: seq<Edit>)
    requires !w.symlink(to) && to !in dirs
    ensures Fated(w, files, dirs, [PatchGit.RenamingPlan(from, to, edits, files)], true) == Conflict
            <==> Lookup(files, to) != Lookup(files, from)
  {
    hide Layable, Trapped;
    var plan := PatchGit.RenamingPlan(from, to, edits, files);
    CheckedExactly(w, files, dirs, [plan]);
    assert Drifts(w, files, dirs, [plan]) <==> DriftsAt(w, files, dirs, [plan], 0);
  }
}
