/**
 * Files and directories in each other's place: which patches can be written, and which can be undone, in a tree where
 * one planned path may lie below another, or below a file that is not part of the patch.
 */
module PatchLayout {
  import opened Base
  import opened PatchModels
  import opened Workspaces
  import opened Rollback

  /** The directories that putting a plan's new image in place needs, and makes if they are missing. */
  function DirsOf(plan: PatchFilePlan): set<Path> {
    if plan.postImage == None then {} else Parents(plan.path)
  }

  /** The directories there are after the new images of `plans` have been put in place: deletion leaves them behind. */
  function DirsAfter(dirs: set<Path>, plans: seq<PatchFilePlan>): set<Path> {
    if plans == [] then dirs
    else
      var last := plans[|plans| - 1];
      DirsAfter(dirs, plans[..|plans| - 1]) + DirsOf(last)
  }

  /** The plan cannot be carried out: its place is a directory, or a file is where it needs one. */
  predicate Blocked(files: Files, dirs: set<Path>, plan: PatchFilePlan) {
    plan.path in dirs || (plan.postImage != None && FileAbove(files, plan.path))
  }

  /** The same, when the plans before it have been carried out. */
  predicate BlockedAt(files: Files, dirs: set<Path>, plans: seq<PatchFilePlan>, i: nat)
    requires i < |plans|
  {
    Blocked(Patched(files, plans[..i]), DirsAfter(dirs, plans[..i]), plans[i])
  }

  /** No plan is blocked when it is reached. */
  predicate Layable(files: Files, dirs: set<Path>, plans: seq<PatchFilePlan>) {
    forall i :: 0 <= i < |plans| ==> !BlockedAt(files, dirs, plans, i)
  }

  /** No deleted path lies above a written one. */
  predicate Undoable(plans: seq<PatchFilePlan>) {
    forall k, j :: 0 <= k < |plans| && 0 <= j < |plans| && plans[k].postImage == None && plans[j].postImage != None ==>
                     !Above(plans[k].path, plans[j].path)
  }

  /** A directory there is afterwards was there before, or a written path lies in it. */
  lemma {:induction false} DirsAfterAre(dirs: set<Path>, plans: seq<PatchFilePlan>, p: Path)
    ensures p in DirsAfter(dirs, plans) <==>
            p in dirs || exists j :: 0 <= j < |plans| && plans[j].postImage != None && Above(p, plans[j].path)
  {
    if plans != [] {
      var front, last := plans[..|plans| - 1], plans[|plans| - 1];
      DirsAfterAre(dirs, front, p);
      assert forall j :: 0 <= j < |front| ==> front[j] == plans[j];
      if exists j :: 0 <= j < |plans| && plans[j].postImage != None && Above(p, plans[j].path) {
        var j :| 0 <= j < |plans| && plans[j].postImage != None && Above(p, plans[j].path);
        if j < |front| {
          assert front[j].postImage != None && Above(p, front[j].path);
        }
      }
    }
  }

  lemma DirsGrow(dirs: set<Path>, plans: seq<PatchFilePlan>, i: nat, n: nat)
    requires i <= n <= |plans|
    ensures dirs <= DirsAfter(dirs, plans[..i]) <= DirsAfter(dirs, plans[..n])
    decreases n
  {
    if i < n {
      assert plans[..n][..n - 1] == plans[..n - 1];
      DirsGrow(dirs, plans, i, n - 1);
    } else {
      forall p | p in dirs ensures p in DirsAfter(dirs, plans[..i]) {
        DirsAfterAre(dirs, plans[..i], p);
      }
    }
  }

  /** What the file of plan `i` or any file above it holds when plan `n` is reached. */
  lemma WhenReached(files: Files, plans: seq<PatchFilePlan>, n: nat, p: Path)
    requires WellFormed(plans) && n <= |plans|
    ensures (forall j :: 0 <= j < n ==> plans[j].path != p) ==>
              Lookup(Patched(files, plans[..n]), p) == Lookup(files, p)
    ensures forall j :: 0 <= j < n && plans[j].path == p ==> Lookup(Patched(files, plans[..n]), p) == plans[j].postImage
  {
    PatchedAt(files, plans[..n]);
    forall j | 0 <= j < n && plans[j].path == p ensures Lookup(Patched(files, plans[..n]), p) == plans[j].postImage {
      assert plans[..n][j] == plans[j];
    }
    if forall j :: 0 <= j < n ==> plans[j].path != p {
      assert p !in PathsOf(plans[..n]);
    }
  }

  // ---------------------------------------------------------------- which patches can be written

  /** Every file above a written path is deleted by an earlier plan. */
  predicate FilesAboveGo(files: Files, plans: seq<PatchFilePlan>) {
    forall i, a :: 0 <= i < |plans| && plans[i].postImage != None && a in files && Above(a, plans[i].path) ==>
                     DeletedBefore(plans, i, a)
  }

  predicate DeletedBefore(plans: seq<PatchFilePlan>, i: nat, a: Path)
    requires i <= |plans|
  {
    exists j :: 0 <= j < i && plans[j].path == a && plans[j].postImage == None
  }

  /** No written path lies above another. */
  predicate NoWrittenAbove(plans: seq<PatchFilePlan>) {
    forall i, j :: 0 <= i < |plans| && 0 <= j < |plans| && plans[i].postImage != None && plans[j].postImage != None ==>
                     !Above(plans[i].path, plans[j].path)
  }

  /**
   * A patch whose old images are in place can be written exactly when every file above a written path is deleted by an
   * earlier plan, and no written path lies above another.
   */
  lemma LayableExactly(files: Files, dirs: set<Path>, plans: seq<PatchFilePlan>)
    requires WellFormed(plans) && AllPre(files, plans) && !AnyDirectory(dirs, plans)
    ensures Layable(files, dirs, plans) <==> FilesAboveGo(files, plans) && NoWrittenAbove(plans)
  {
    hide Patched, DirsAfter, WellFormedPlan;
    if Layable(files, dirs, plans) {
      LayableFilesGo(files, dirs, plans);
      LayableNoneAbove(files, dirs, plans);
    }
    if FilesAboveGo(files, plans) && NoWrittenAbove(plans) {
      forall i | 0 <= i < |plans| ensures !BlockedAt(files, dirs, plans, i) {
        NotBlocked(files, dirs, plans, i);
      }
    }
  }

  lemma LayableFilesGo(files: Files, dirs: set<Path>, plans: seq<PatchFilePlan>)
    requires WellFormed(plans) && Layable(files, dirs, plans)
    ensures FilesAboveGo(files, plans)
  {
    hide Patched, DirsAfter, WellFormedPlan;
    forall i, a | 0 <= i < |plans| && plans[i].postImage != None && a in files && Above(a, plans[i].path)
      ensures DeletedBefore(plans, i, a)
    {
      assert !BlockedAt(files, dirs, plans, i);
      WhenReached(files, plans, i, a);
    }
  }

  lemma LayableNoneAbove(files: Files, dirs: set<Path>, plans: seq<PatchFilePlan>)
    requires WellFormed(plans) && Layable(files, dirs, plans)
    ensures NoWrittenAbove(plans)
  {
    hide Patched, DirsAfter, WellFormedPlan;
    forall i, j | 0 <= i < |plans| && 0 <= j < |plans| && plans[i].postImage != None && plans[j].postImage != None
      ensures !Above(plans[i].path, plans[j].path)
    {
      assert forall m :: 0 <= m < i ==> plans[..i][m] == plans[m];
      if i < j {
        assert !BlockedAt(files, dirs, plans, j);
        WhenReached(files, plans, j, plans[i].path);
      } else {
        assert !BlockedAt(files, dirs, plans, i);
        DirsAfterAre(dirs, plans[..i], plans[i].path);
      }
    }
  }

  lemma NotBlocked(files: Files, dirs: set<Path>, plans: seq<PatchFilePlan>, i: nat)
    requires WellFormed(plans) && AllPre(files, plans) && !AnyDirectory(dirs, plans) && i < |plans|
    requires FilesAboveGo(files, plans) && NoWrittenAbove(plans)
    ensures !BlockedAt(files, dirs, plans, i)
  {
    hide Patched, DirsAfter, AnyDirectory;
    var now := Patched(files, plans[..i]);
    forall j | 0 <= j < i && plans[..i][j].postImage != None ensures !Above(plans[i].path, plans[..i][j].path) {
      assert plans[..i][j] == plans[j];
      assert WellFormedPlan(plans[i]);
    }
    DirsAfterAre(dirs, plans[..i], plans[i].path);
    assert plans[i].path in dirs ==> AnyDirectory(dirs, plans) by { InDirectory(dirs, plans, i); }
    forall a | a in now && Above(a, plans[i].path) ensures plans[i].postImage == None {
      WhenReached(files, plans, i, a);
    }
  }

  lemma InDirectory(dirs: set<Path>, plans: seq<PatchFilePlan>, i: nat)
    requires i < |plans|
    ensures plans[i].path in dirs ==> AnyDirectory(dirs, plans)
  {
  }

  // ---------------------------------------------------------------- which patches can be undone

  /**
   * After a patch that could be written, the place of a planned path is a directory exactly if a deleted path lies
   * above a written one.
   */
  lemma UndoableExactly(files: Files, dirs: set<Path>, plans: seq<PatchFilePlan>)
    requires WellFormed(plans) && AllPre(files, plans) && !AnyDirectory(dirs, plans) && Layable(files, dirs, plans)
    ensures AnyDirectory(DirsAfter(dirs, plans), plans) <==> !Undoable(plans)
  {
    hide Patched, DirsAfter, WellFormedPlan, Layable;
    LayableNoneAbove(files, dirs, plans);
    if AnyDirectory(DirsAfter(dirs, plans), plans) {
      var k :| 0 <= k < |plans| && plans[k].path in DirsAfter(dirs, plans);
      DirsAfterAre(dirs, plans, plans[k].path);
    }
    if !Undoable(plans) {
      var k, j :| 0 <= k < |plans| && 0 <= j < |plans| && plans[k].postImage == None && plans[j].postImage != None
                  && Above(plans[k].path, plans[j].path);
      DirsAfterAre(dirs, plans, plans[k].path);
      assert plans[k].path in DirsAfter(dirs, plans);
    }
  }

  // ---------------------------------------------------------------- what is in the way, seen from the paths

  /** By an earlier plan: a path is written that lies below `p`. */
  predicate WrittenBelow(plans: seq<PatchFilePlan>, i: nat, p: Path)
    requires i <= |plans|
  {
    exists j :: 0 <= j < i && plans[j].postImage != None && Above(p, plans[j].path)
  }

  /** By an earlier plan: a path is written that lies above `p`. */
  predicate WrittenAbove(plans: seq<PatchFilePlan>, i: nat, p: Path)
    requires i <= |plans|
  {
    exists j :: 0 <= j < i && plans[j].postImage != None && Above(plans[j].path, p)
  }

  /** There is a file above `p` that no earlier plan deletes. */
  predicate FileLeftAbove(files: Files, plans: seq<PatchFilePlan>, i: nat, p: Path)
    requires i <= |plans|
  {
    exists a :: a in files && Above(a, p) && !DeletedBefore(plans, i, a)
  }

  /** Plan `i` stands in the way of an earlier one or of a file: seen from the paths alone. */
  predicate Obstructed(files: Files, plans: seq<PatchFilePlan>, i: nat)
    requires i < |plans|
  {
    || WrittenBelow(plans, i, plans[i].path)
    || (plans[i].postImage != None
        && (WrittenAbove(plans, i, plans[i].path) || FileLeftAbove(files, plans, i, plans[i].path)))
  }

  lemma BelowExactly(dirs: set<Path>, plans: seq<PatchFilePlan>, i: nat, p: Path)
    requires i <= |plans|
    ensures p in DirsAfter(dirs, plans[..i]) <==> p in dirs || WrittenBelow(plans, i, p)
  {
    hide DirsAfter, Above;
    DirsAfterAre(dirs, plans[..i], p);
    assert forall j :: 0 <= j < i ==> plans[..i][j] == plans[j];
    if WrittenBelow(plans, i, p) {
      var j :| 0 <= j < i && plans[j].postImage != None && Above(p, plans[j].path);
      assert plans[..i][j].postImage != None && Above(p, plans[..i][j].path);
    }
  }

  lemma FileAboveExactly(files: Files, plans: seq<PatchFilePlan>, i: nat, p: Path)
    requires WellFormed(plans) && i <= |plans|
    ensures FileAbove(Patched(files, plans[..i]), p) <==> WrittenAbove(plans, i, p) || FileLeftAbove(files, plans, i, p)
  {
    hide Patched, Above, WellFormedPlan;
    var now := Patched(files, plans[..i]);
    if FileAbove(now, p) {
      var a :| a in now && Above(a, p);
      WhenReached(files, plans, i, a);
      if !WrittenAbove(plans, i, p) {
        assert a in files && !DeletedBefore(plans, i, a);
      }
    }
    if WrittenAbove(plans, i, p) {
      var j :| 0 <= j < i && plans[j].postImage != None && Above(plans[j].path, p);
      WhenReached(files, plans, i, plans[j].path);
      assert plans[j].path in now;
    }
    if FileLeftAbove(files, plans, i, p) {
      var a :| a in files && Above(a, p) && !DeletedBefore(plans, i, a);
      WhenReached(files, plans, i, a);
      assert a in now;
    }
  }

  /**
   * What blocks a plan when it is reached can be seen beforehand from the paths of the patch and the files of the
   * tree.
   */
  lemma BlockedExactly(files: Files, dirs: set<Path>, plans: seq<PatchFilePlan>, i: nat)
    requires WellFormed(plans) && !AnyDirectory(dirs, plans) && i < |plans|
    ensures BlockedAt(files, dirs, plans, i) <==> Obstructed(files, plans, i)
  {
    hide Patched, DirsAfter, WellFormedPlan, FileAbove, WrittenAbove, WrittenBelow, FileLeftAbove, AnyDirectory;
    InDirectory(dirs, plans, i);
    BelowExactly(dirs, plans, i, plans[i].path);
    FileAboveExactly(files, plans, i, plans[i].path);
  }
}
