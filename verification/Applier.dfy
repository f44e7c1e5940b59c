/** `patching/applier.py`: check every old image, write file by file, and on an I/O error put back what was written. */
module Applier {
  import opened Base
  import opened PatchModels
  import opened Workspaces
  import opened Rollback
  import opened PatchLayout

  datatype ApplyOutcome =
    | Applied(files: seq<PatchFilePlan>)
    | Unauthorized
    | Conflict
    | ApplyFailed
    | UnknownOutcome
    | Raised

  datatype CheckOutcome = Passed | Drift | CheckRaised

  predicate NoSymlinks(w: World, plans: seq<PatchFilePlan>) {
    forall i :: 0 <= i < |plans| ==> !w.symlink(plans[i].path)
  }

  /** Whether every check before the first write passes in this tree. */
  predicate ChecksPass(w: World, files: Files, dirs: set<Path>, plans: seq<PatchFilePlan>) {
    AllPre(files, plans) && NoSymlinks(w, plans) && !AnyDirectory(dirs, plans)
  }

  /** The check of one plan: a directory in the file's place is not a conflict but an exception. */
  function CheckOne(w: World, files: Files, dirs: set<Path>, plan: PatchFilePlan): CheckOutcome {
    if w.symlink(plan.path) then Drift
    else if plan.path in dirs then CheckRaised
    else if Lookup(files, plan.path) != plan.preImage then Drift
    else Passed
  }

  /** The first check that does not pass decides. */
  function Checked(w: World, files: Files, dirs: set<Path>, plans: seq<PatchFilePlan>): CheckOutcome {
    if plans == [] then Passed
    else
      var front := Checked(w, files, dirs, plans[..|plans| - 1]);
      if front == Passed then CheckOne(w, files, dirs, plans[|plans| - 1]) else front
  }

  lemma {:induction false} CheckedPasses(w: World, files: Files, dirs: set<Path>, plans: seq<PatchFilePlan>)
    ensures Checked(w, files, dirs, plans) == Passed <==> ChecksPass(w, files, dirs, plans)
  {
    if plans != [] {
      var front, last := plans[..|plans| - 1], plans[|plans| - 1];
      CheckedPasses(w, files, dirs, front);
      assert plans == front + [last];
      assert ChecksPass(w, files, dirs, plans) <==> ChecksPass(w, files, dirs, front)
                                                    && CheckOne(w, files, dirs, last) == Passed by {
        assert forall i :: 0 <= i < |front| ==> front[i] == plans[i];
        if ChecksPass(w, files, dirs, plans) {
          assert !AnyDirectory(dirs, front);
        }
      }
    }
  }

  // ---------------------------------------------------------------- what the check loop finds, plan by plan

  /** The place of a plan is as the plan expects it: no symlink, no directory, and the old image there. */
  predicate Ready(w: World, files: Files, dirs: set<Path>, plan: PatchFilePlan) {
    !w.symlink(plan.path) && plan.path !in dirs && Lookup(files, plan.path) == plan.preImage
  }

  predicate AllReady(w: World, files: Files, dirs: set<Path>, plans: seq<PatchFilePlan>) {
    forall k :: 0 <= k < |plans| ==> Ready(w, files, dirs, plans[k])
  }

  /** Plan `k` is the first that is not ready, as a symlink or with something else than its old image. */
  predicate DriftsAt(w: World, files: Files, dirs: set<Path>, plans: seq<PatchFilePlan>, k: nat)
    requires k < |plans|
  {
    && (forall m :: 0 <= m < k ==> Ready(w, files, dirs, plans[m]))
    && (w.symlink(plans[k].path) || (plans[k].path !in dirs && Lookup(files, plans[k].path) != plans[k].preImage))
  }

  predicate Drifts(w: World, files: Files, dirs: set<Path>, plans: seq<PatchFilePlan>) {
    exists k :: 0 <= k < |plans| && DriftsAt(w, files, dirs, plans, k)
  }

  /** Plan `k` is the first that is not ready, as a directory. */
  predicate MeetsDirectoryAt(w: World, files: Files, dirs: set<Path>, plans: seq<PatchFilePlan>, k: nat)
    requires k < |plans|
  {
    && (forall m :: 0 <= m < k ==> Ready(w, files, dirs, plans[m]))
    && !w.symlink(plans[k].path) && plans[k].path in dirs
  }

  predicate MeetsDirectory(w: World, files: Files, dirs: set<Path>, plans: seq<PatchFilePlan>) {
    exists k :: 0 <= k < |plans| && MeetsDirectoryAt(w, files, dirs, plans, k)
  }

  lemma DecidedBefore(w: World, files: Files, dirs: set<Path>, plans: seq<PatchFilePlan>, front: seq<PatchFilePlan>)
    requires plans != [] && front == plans[..|plans| - 1]
    ensures Drifts(w, files, dirs, plans)
            <==> Drifts(w, files, dirs, front) || DriftsAt(w, files, dirs, plans, |plans| - 1)
    ensures MeetsDirectory(w, files, dirs, plans)
            <==> MeetsDirectory(w, files, dirs, front) || MeetsDirectoryAt(w, files, dirs, plans, |plans| - 1)
  {
    hide Ready;
    forall k | 0 <= k < |front|
      ensures DriftsAt(w, files, dirs, plans, k) <==> DriftsAt(w, files, dirs, front, k)
      ensures MeetsDirectoryAt(w, files, dirs, plans, k) <==> MeetsDirectoryAt(w, files, dirs, front, k)
    {
      assert forall m :: 0 <= m <= k ==> plans[m] == front[m];
    }
  }

  /** The checks pass if every plan is ready, and otherwise the first that is not decides between drift and raising. */
  lemma {:induction false} CheckedExactly(w: World, files: Files, dirs: set<Path>, plans: seq<PatchFilePlan>)
    ensures Checked(w, files, dirs, plans) == Passed <==> AllReady(w, files, dirs, plans)
    ensures Checked(w, files, dirs, plans) == Drift <==> Drifts(w, files, dirs, plans)
    ensures Checked(w, files, dirs, plans) == CheckRaised <==> MeetsDirectory(w, files, dirs, plans)
  {
    hide Drifts, MeetsDirectory;
    if plans == [] {
      assert !Drifts(w, files, dirs, []) && !MeetsDirectory(w, files, dirs, []) by { NothingDecided(w, files, dirs); }
    } else {
      var front := plans[..|plans| - 1];
      CheckedExactly(w, files, dirs, front);
      DecidedBefore(w, files, dirs, plans, front);
      assert forall m :: 0 <= m < |front| ==> plans[m] == front[m];
      assert AllReady(w, files, dirs, front) <==> forall m :: 0 <= m < |plans| - 1 ==>
                                                   Ready(w, files, dirs, plans[m]);
    }
  }

  lemma NothingDecided(w: World, files: Files, dirs: set<Path>)
    ensures !Drifts(w, files, dirs, []) && !MeetsDirectory(w, files, dirs, [])
  {
  }

  lemma {:induction false} CheckedStops(w: World, files: Files, dirs: set<Path>, plans: seq<PatchFilePlan>, n: nat)
    requires n <= |plans| && Checked(w, files, dirs, plans[..n]) != Passed
    ensures Checked(w, files, dirs, plans) == Checked(w, files, dirs, plans[..n])
    decreases |plans|
  {
    if n == |plans| {
      assert plans[..n] == plans;
    } else {
      assert plans[..|plans| - 1][..n] == plans[..n];
      CheckedStops(w, files, dirs, plans[..|plans| - 1], n);
    }
  }

  lemma CheckedOneMore(w: World, files: Files, dirs: set<Path>, plans: seq<PatchFilePlan>, i: nat)
    requires i < |plans| && Checked(w, files, dirs, plans[..i]) == Passed
    ensures Checked(w, files, dirs, plans[..i + 1]) == CheckOne(w, files, dirs, plans[i])
  {
    assert plans[..i + 1][..i] == plans[..i];
  }

  /** Some call between two moments failed. */
  ghost predicate FaultBetween(w: World, from: nat, to: nat) {
    exists t: nat :: from <= t < to && w.fault(t) != NoFault
  }

  lemma NoFurtherFault(w: World, from: nat, to: nat)
    requires AtMostOneFault(w) && FaultBetween(w, from, to)
    ensures FaultFree(w, to)
  {
  }

  /** All paths that held a file or that a plan names hold in `now` what they held in `before`. */
  ghost predicate Original(now: Files, before: Files, plans: seq<PatchFilePlan>) {
    forall p: Path :: p in before || p in PathsOf(plans) ==> Lookup(now, p) == Lookup(before, p)
  }

  /** Files that existed and that no plan names are as they were. */
  ghost predicate BystandersKept(now: Files, before: Files, plans: seq<PatchFilePlan>) {
    forall p: Path :: p in before && p !in PathsOf(plans) ==> Lookup(now, p) == Lookup(before, p)
  }

  /** The writes are interrupted at plan `i`: new images before it, old images after it, one of the two at it. */
  ghost predicate Midway(now: Files, before: Files, plans: seq<PatchFilePlan>, i: nat)
    requires i < |plans|
  {
    && (forall k :: 0 <= k < i ==> Lookup(now, plans[k].path) == plans[k].postImage)
    && (Lookup(now, plans[i].path) == plans[i].preImage || Lookup(now, plans[i].path) == plans[i].postImage)
    && (forall k :: i < k < |plans| ==> Lookup(now, plans[k].path) == plans[k].preImage)
    && BystandersKept(now, before, plans)
  }

  /** The check loop: nothing is changed, whatever happens. */
  method CheckPreImages(plans: seq<PatchFilePlan>, ws: Workspace) returns (outcome: CheckOutcome)
    requires forall i :: 0 <= i < |plans| ==> WellFormedPlan(plans[i])
    modifies ws
    ensures ws.clock >= old(ws.clock) && ws.writes == old(ws.writes)
    ensures Quiet(ws.world) ==> ws.files == old(ws.files) && ws.dirs == old(ws.dirs)
    ensures Quiet(ws.world) ==>
              outcome == Checked(ws.world, ws.files, ws.dirs, plans)
              || (outcome == CheckRaised && FaultBetween(ws.world, old(ws.clock), ws.clock))
    ensures Quiet(ws.world) && outcome == Drift ==> Drifts(ws.world, old(ws.files), old(ws.dirs), plans)
    ensures Quiet(ws.world) && outcome == Passed ==> AllReady(ws.world, old(ws.files), old(ws.dirs), plans)
    ensures Quiet(ws.world) && outcome == CheckRaised ==>
              MeetsDirectory(ws.world, old(ws.files), old(ws.dirs), plans)
              || FaultBetween(ws.world, old(ws.clock), ws.clock)
  {
    hide WellFormedPlan, AllReady, Drifts, MeetsDirectory;
    CheckedExactly(ws.world, ws.files, ws.dirs, plans);
    for i := 0 to |plans|
      invariant ws.clock >= old(ws.clock) && ws.writes == old(ws.writes)
      invariant Quiet(ws.world) ==> ws.files == old(ws.files) && ws.dirs == old(ws.dirs)
      invariant Quiet(ws.world) ==> Checked(ws.world, ws.files, ws.dirs, plans[..i]) == Passed
    {
      if Quiet(ws.world) {
        CheckedOneMore(ws.world, ws.files, ws.dirs, plans, i);
        if Checked(ws.world, ws.files, ws.dirs, plans[..i + 1]) != Passed {
          CheckedStops(ws.world, ws.files, ws.dirs, plans, i + 1);
        }
      }
      if ws.world.symlink(plans[i].path) {
        return Drift;
      }
      var raised, actual := ws.Read(plans[i].path);
      if raised {
        return CheckRaised;
      }
      PreImageHash(plans[i], actual);
      if Sha(actual) != plans[i].preImageSha256 {
        return Drift;
      }
    }
    assert plans[..|plans|] == plans;
    outcome := Passed;
  }

  lemma PreImageHash(plan: PatchFilePlan, actual: Option<Bytes>)
    requires WellFormedPlan(plan)
    ensures Sha(actual) == plan.preImageSha256 <==> actual == plan.preImage
    ensures Sha(actual) == plan.postImageSha256 <==> actual == plan.postImage
  {
    if Sha(actual) == plan.preImageSha256 {
      ShaInjective(actual, plan.preImage);
    }
    if Sha(actual) == plan.postImageSha256 {
      ShaInjective(actual, plan.postImage);
    }
  }

  /** No other process interferes, and temporary names do not collide with existing or planned files. */
  ghost predicate Calm(w: World, planned: set<Path>) {
    Quiet(w) && FreshTemps(w, planned)
  }

  /**
   * Only `plan`'s own file may differ among those that existed or are planned, and it holds its old or its new image.
   */
  ghost predicate Interrupted(now: Files, before: Files, plan: PatchFilePlan, planned: set<Path>) {
    && (Lookup(now, plan.path) == Lookup(before, plan.path) || Lookup(now, plan.path) == plan.postImage)
    && forall p: Path :: p != plan.path && (p in before || p in planned) ==> Lookup(now, p) == Lookup(before, p)
  }

  /** The body of the write loop: one file is deleted, or replaced through a temporary file. */
  method InstallOne(plan: PatchFilePlan, ghost planned: set<Path>, ws: Workspace) returns (raised: bool)
    requires WellFormedPlan(plan) && plan.path in planned
    modifies ws
    ensures ws.clock >= old(ws.clock)
    ensures old(ws.writes) <= ws.writes
    ensures forall k :: |old(ws.writes)| <= k < |ws.writes| ==> !ws.writes[k].Restore?
    ensures Calm(ws.world, planned) ==> old(ws.dirs) <= ws.dirs <= old(ws.dirs) + DirsOf(plan)
    ensures Calm(ws.world, planned) && !raised ==>
              ws.files == Put(old(ws.files), plan.path, plan.postImage) && ws.dirs == old(ws.dirs) + DirsOf(plan)
    ensures Calm(ws.world, planned) && raised ==> Interrupted(ws.files, old(ws.files), plan, planned)
    ensures Calm(ws.world, planned) && Blocked(old(ws.files), old(ws.dirs), plan) ==>
              raised && (FaultFree(ws.world, old(ws.clock)) ==> plan.path in old(ws.dirs) || ws.dirs == old(ws.dirs))
    ensures Calm(ws.world, planned) && raised && Lookup(old(ws.files), plan.path) == plan.preImage ==>
              Blocked(old(ws.files), old(ws.dirs), plan) || FaultBetween(ws.world, old(ws.clock), ws.clock)
  {
    if plan.operation == Delete {
      raised := ws.Unlink(plan);
    } else {
      var temp;
      raised, temp := ws.WriteTemp(plan.path, plan.postImage.value);
      if raised {
        return;
      }
      raised := ws.Replace(temp, plan);
      if Calm(ws.world, planned) {
        TempMoved(old(ws.files), temp, plan);
      }
    }
  }

  lemma TempMoved(files: Files, temp: Path, plan: PatchFilePlan)
    requires temp !in files && plan.postImage != None
    ensures (files[temp := plan.postImage.value] - {temp})[plan.path := plan.postImage.value]
            == Put(files, plan.path, plan.postImage)
  {
    assert files[temp := plan.postImage.value] - {temp} == files;
  }

  lemma PatchedOneMore(files: Files, plans: seq<PatchFilePlan>, i: nat)
    requires i < |plans|
    ensures Patched(files, plans[..i + 1]) == Put(Patched(files, plans[..i]), plans[i].path, plans[i].postImage)
  {
    assert plans[..i + 1][..i] == plans[..i];
  }

  lemma PrefixPaths(plans: seq<PatchFilePlan>, i: nat)
    requires i <= |plans|
    ensures PathsOf(plans[..i]) <= PathsOf(plans)
  {
    forall p | p in PathsOf(plans[..i]) ensures p in PathsOf(plans) {
      var k :| 0 <= k < i && plans[..i][k].path == p;
      assert plans[k].path == p;
    }
  }

  /** After `i` files have been written, those hold their new images and everything else is untouched. */
  lemma PatchedPrefix(files: Files, plans: seq<PatchFilePlan>, i: nat)
    requires WellFormed(plans) && AllPre(files, plans) && i <= |plans|
    ensures var now := Patched(files, plans[..i]);
            && (forall k :: 0 <= k < i ==> Lookup(now, plans[k].path) == plans[k].postImage)
            && (forall k :: i <= k < |plans| ==> Lookup(now, plans[k].path) == plans[k].preImage)
            && (forall p: Path :: p !in PathsOf(plans) ==> Lookup(now, p) == Lookup(files, p))
  {
    var now := Patched(files, plans[..i]);
    PatchedAt(files, plans[..i]);
    PrefixPaths(plans, i);
    forall k | 0 <= k < i ensures Lookup(now, plans[k].path) == plans[k].postImage {
      assert plans[..i][k] == plans[k];
    }
    forall k | i <= k < |plans| ensures Lookup(now, plans[k].path) == plans[k].preImage {
      assert plans[k].path !in PathsOf(plans[..i]) by {
        assert forall j :: 0 <= j < i ==> plans[..i][j] == plans[j];
      }
    }
  }

  /** A write interrupted at plan `i` leaves the files midway. */
  lemma InterruptedMidway(now: Files, files: Files, plans: seq<PatchFilePlan>, i: nat)
    requires WellFormed(plans) && AllPre(files, plans) && i < |plans|
    requires Interrupted(now, Patched(files, plans[..i]), plans[i], PathsOf(plans))
    ensures Midway(now, files, plans, i)
  {
    var before := Patched(files, plans[..i]);
    PatchedPrefix(files, plans, i);
    forall k | 0 <= k < |plans| && k != i ensures Lookup(now, plans[k].path) == Lookup(before, plans[k].path) {
      assert plans[k].path in PathsOf(plans);
    }
    forall p: Path | p in files && p !in PathsOf(plans) ensures Lookup(now, p) == Lookup(files, p) {
      assert Lookup(before, p) == Lookup(files, p);
      assert plans[i].path in PathsOf(plans);
    }
  }

  /** The first `i` plans have been carried out, none of them blocked. */
  ghost predicate Laid(files: Files, dirs: set<Path>, files0: Files, dirs0: set<Path>, plans: seq<PatchFilePlan>,
                       i: nat)
    requires i <= |plans|
  {
    && files == Patched(files0, plans[..i])
    && dirs == DirsAfter(dirs0, plans[..i])
    && forall k :: 0 <= k < i ==> !BlockedAt(files0, dirs0, plans, k)
  }

  /** The writes are interrupted at plan `i`; no plan before it was blocked. */
  ghost predicate Stuck(files: Files, dirs: set<Path>, files0: Files, dirs0: set<Path>, plans: seq<PatchFilePlan>,
                        i: nat)
    requires i < |plans|
  {
    && Midway(files, files0, plans, i)
    && DirsAfter(dirs0, plans[..i]) <= dirs <= DirsAfter(dirs0, plans[..i + 1])
    && forall k :: 0 <= k < i ==> !BlockedAt(files0, dirs0, plans, k)
  }

  lemma NothingLaid(files: Files, dirs: set<Path>, plans: seq<PatchFilePlan>)
    ensures Laid(files, dirs, files, dirs, plans, 0)
  {
    assert plans[..0] == [];
  }

  lemma AllLaid(files: Files, dirs: set<Path>, files0: Files, dirs0: set<Path>, plans: seq<PatchFilePlan>)
    requires Laid(files, dirs, files0, dirs0, plans, |plans|)
    ensures files == Patched(files0, plans) && dirs == DirsAfter(dirs0, plans) && Layable(files0, dirs0, plans)
  {
    assert plans[..|plans|] == plans;
  }

  /** What carrying out plan `i` leads to: one more plan laid, or the writes stuck there. */
  lemma LaidOneMore(files: Files, dirs: set<Path>, last: Files, lastDirs: set<Path>, files0: Files, dirs0: set<Path>,
                    plans: seq<PatchFilePlan>, i: nat)
    requires WellFormed(plans) && AllPre(files0, plans) && i < |plans| && Laid(last, lastDirs, files0, dirs0, plans, i)
    requires lastDirs <= dirs <= lastDirs + DirsOf(plans[i])
    ensures BlockedAt(files0, dirs0, plans, i) <==> Blocked(last, lastDirs, plans[i])
    ensures Lookup(last, plans[i].path) == plans[i].preImage
    ensures files == Put(last, plans[i].path, plans[i].postImage) && dirs == lastDirs + DirsOf(plans[i])
            && !BlockedAt(files0, dirs0, plans, i) ==>
              Laid(files, dirs, files0, dirs0, plans, i + 1)
    ensures Interrupted(files, last, plans[i], PathsOf(plans)) ==> Stuck(files, dirs, files0, dirs0, plans, i)
  {
    hide WellFormedPlan, Interrupted, Midway, Blocked, AllPre;
    PatchedPrefix(files0, plans, i);
    PatchedOneMore(files0, plans, i);
    assert plans[..i + 1][..i] == plans[..i];
    if Interrupted(files, last, plans[i], PathsOf(plans)) {
      InterruptedMidway(files, files0, plans, i);
    }
  }

  /** The write loop. `changed` lists the files begun, the last of them perhaps unfinished. */
  method InstallAll(plans: seq<PatchFilePlan>, ws: Workspace) returns (raised: bool, changed: seq<PatchFilePlan>)
    requires WellFormed(plans)
    modifies ws
    ensures ws.clock >= old(ws.clock)
    ensures old(ws.writes) <= ws.writes
    ensures forall k :: |old(ws.writes)| <= k < |ws.writes| ==> !ws.writes[k].Restore?
    ensures changed <= plans && (!raised ==> changed == plans) && (raised ==> changed != [])
    ensures Calm(ws.world, PathsOf(plans)) && AllPre(old(ws.files), plans) && !raised ==>
              && ws.files == Patched(old(ws.files), plans) && ws.dirs == DirsAfter(old(ws.dirs), plans)
              && Layable(old(ws.files), old(ws.dirs), plans)
    ensures Calm(ws.world, PathsOf(plans)) && AllPre(old(ws.files), plans) && raised ==>
              var i := |changed| - 1;
              var laid := DirsAfter(old(ws.dirs), plans[..i]);
              && Stuck(ws.files, ws.dirs, old(ws.files), old(ws.dirs), plans, i)
              && (BlockedAt(old(ws.files), old(ws.dirs), plans, i) || FaultBetween(ws.world, old(ws.clock), ws.clock))
              && (FaultFree(ws.world, old(ws.clock)) ==> plans[i].path in laid || ws.dirs == laid)
  {
    hide WellFormedPlan, Interrupted, FaultBetween, Calm, AllPre, Laid, Stuck, Blocked, BlockedAt, FaultFree;
    changed := [];
    NothingLaid(ws.files, ws.dirs, plans);
    for i := 0 to |plans|
      invariant ws.clock >= old(ws.clock)
      invariant old(ws.writes) <= ws.writes
      invariant forall k :: |old(ws.writes)| <= k < |ws.writes| ==> !ws.writes[k].Restore?
      invariant changed == plans[..i]
      invariant Calm(ws.world, PathsOf(plans)) && AllPre(old(ws.files), plans) ==>
                  Laid(ws.files, ws.dirs, old(ws.files), old(ws.dirs), plans, i)
    {
      changed := changed + [plans[i]];
      assert changed == plans[..i + 1];
      assert plans[i].path in PathsOf(plans);
      ghost var now, last, lastDirs := ws.clock, ws.files, ws.dirs;
      raised := InstallOne(plans[i], PathsOf(plans), ws);
      if Calm(ws.world, PathsOf(plans)) && AllPre(old(ws.files), plans) {
        LaidOneMore(ws.files, ws.dirs, last, lastDirs, old(ws.files), old(ws.dirs), plans, i);
        if raised {
          LaterFaults(ws.world, old(ws.clock), now, ws.clock);
          LaidDirs(last, lastDirs, old(ws.files), old(ws.dirs), plans, i);
        }
      }
      if raised {
        return;
      }
    }
    raised := false;
    if Calm(ws.world, PathsOf(plans)) && AllPre(old(ws.files), plans) {
      AllLaid(ws.files, ws.dirs, old(ws.files), old(ws.dirs), plans);
    }
    assert plans[..|plans|] == plans;
  }

  lemma LaidDirs(files: Files, dirs: set<Path>, files0: Files, dirs0: set<Path>, plans: seq<PatchFilePlan>, i: nat)
    requires i <= |plans| && Laid(files, dirs, files0, dirs0, plans, i)
    ensures dirs == DirsAfter(dirs0, plans[..i])
  {
  }

  lemma LaterFaults(w: World, a: nat, b: nat, c: nat)
    requires a <= b <= c
    ensures FaultBetween(w, b, c) ==> FaultBetween(w, a, c)
    ensures FaultFree(w, a) ==> FaultFree(w, b) && !FaultBetween(w, b, c)
  {
  }

  /** The file holds neither image of the plan: someone else has written it. */
  predicate ForeignContent(files: Files, plan: PatchFilePlan) {
    Lookup(files, plan.path) != plan.preImage && Lookup(files, plan.path) != plan.postImage
  }

  predicate AnyForeign(files: Files, plans: seq<PatchFilePlan>) {
    exists i :: 0 <= i < |plans| && ForeignContent(files, plans[i])
  }

  /** `part` lists some of the plans of `all[..n]`, in order, so that distinct paths stay distinct. */
  ghost predicate Selection(part: seq<PatchFilePlan>, all: seq<PatchFilePlan>, n: nat)
    requires n <= |all|
  {
    WellFormed(part) && forall k :: 0 <= k < |part| ==> part[k] in all[..n]
  }

  lemma SelectionGrows(part: seq<PatchFilePlan>, all: seq<PatchFilePlan>, n: nat)
    requires n < |all| && WellFormed(all) && Selection(part, all, n)
    ensures Selection(part, all, n + 1) && Selection(part + [all[n]], all, n + 1)
  {
    assert forall k :: 0 <= k < n ==> all[..n][k] == all[k];
    assert all[..n + 1] == all[..n] + [all[n]];
    var more := part + [all[n]];
    forall i, j | 0 <= i < j < |more| ensures more[i].path != more[j].path {
      if j == |part| {
        var k :| 0 <= k < n && all[..n][k] == part[i];
      }
    }
  }

  lemma SelectionPaths(part: seq<PatchFilePlan>, all: seq<PatchFilePlan>)
    requires Selection(part, all, |all|)
    ensures forall p: Path :: p in PathsOf(part) ==> p in PathsOf(all)
    ensures forall e :: e in part ==> e in all
  {
    assert all[..|all|] == all;
    forall p: Path | p in PathsOf(part) ensures p in PathsOf(all) {
      var k :| 0 <= k < |part| && part[k].path == p;
      var i :| 0 <= i < |all| && all[i] == part[k];
      assert all[i].path == p;
    }
  }

  /** Undoing the plans that were found done, out of plans each found done or not begun, leaves every old image. */
  lemma CompensationRestores(files: Files, part: seq<PatchFilePlan>, all: seq<PatchFilePlan>)
    requires WellFormed(all) && Selection(part, all, |all|)
    requires forall k :: 0 <= k < |all| ==> Lookup(files, all[k].path) == all[k].preImage || all[k] in part
    ensures AllPre(Undone(files, part), all)
    ensures SameElsewhere(Undone(files, part), files, all)
  {
    UndoneAt(files, part);
    SelectionPaths(part, all);
    var after := Undone(files, part);
    forall k | 0 <= k < |all| ensures Lookup(after, all[k].path) == all[k].preImage {
      if all[k].path in PathsOf(part) {
        var i :| 0 <= i < |part| && part[i].path == all[k].path;
        assert part[i] in all;
        var j :| 0 <= j < |all| && all[j] == part[i];
        assert j == k;
      } else if all[k] in part {
        assert false;
      }
    }
  }

  /** The `except OSError` branch: sort the files begun into untouched and written, and roll the written ones back. */
  method Compensate(changed: seq<PatchFilePlan>, ws: Workspace) returns (outcome: ApplyOutcome)
    requires WellFormed(changed)
    modifies ws
    ensures outcome in {ApplyFailed, UnknownOutcome, Raised}
    ensures ws.clock >= old(ws.clock)
    ensures old(ws.writes) <= ws.writes && OnlyRestores(ws.world, ws.writes, |old(ws.writes)|, changed)
    ensures Quiet(ws.world) ==> SameElsewhere(ws.files, old(ws.files), changed) && ws.dirs == old(ws.dirs)
    ensures Quiet(ws.world) && outcome == ApplyFailed ==> AllPre(ws.files, changed) && !AnyDirectory(ws.dirs, changed)
    ensures Quiet(ws.world) && AnyForeign(old(ws.files), changed) ==>
              outcome != ApplyFailed && ws.files == old(ws.files) && ws.writes == old(ws.writes)
    ensures Quiet(ws.world) && outcome == UnknownOutcome ==> AnyForeign(old(ws.files), changed)
    ensures Quiet(ws.world) && AnyDirectory(ws.dirs, changed) ==>
              outcome != ApplyFailed && ws.files == old(ws.files) && ws.writes == old(ws.writes)
    ensures QuietDirs(ws.world) ==> ws.dirs == old(ws.dirs)
    ensures QuietDirs(ws.world) && FaultFree(ws.world, old(ws.clock)) && PlacesKept(ws.dirs, changed)
            && !AnyDirectory(ws.dirs, changed) ==>
              outcome != Raised
  {
    hide SameElsewhere, OnlyRestores, Quiet, PlacesKept, AnyDirectory, AllPost, AnyForeign, AllPre;
    SameAsItself(ws.files, changed);
    NoRestoresYet(ws.world, ws.writes, changed);
    var compensable: seq<PatchFilePlan>;
    outcome, compensable := Classify(changed, ws);
    if outcome != ApplyFailed {
      return;
    }
    ghost var files, now := ws.files, ws.clock;
    LaterFaults(ws.world, old(ws.clock), now, now);
    PlacesOfSelection(ws.dirs, compensable, changed);
    var rolledBack := Rollback.Rollback(compensable, ws);
    RestoresOfSelection(ws.world, ws.writes, |old(ws.writes)|, compensable, changed);
    if Quiet(ws.world) {
      SelectionElsewhere(ws.files, files, compensable, changed);
      if rolledBack == RolledBack {
        CompensationRestores(files, compensable, changed);
      }
    }
    outcome := match rolledBack
      case RollbackRaised => Raised
      case RollbackConflict => UnknownOutcome
      case RolledBack => ApplyFailed;
  }

  lemma PlacesOfSelection(dirs: set<Path>, part: seq<PatchFilePlan>, all: seq<PatchFilePlan>)
    requires Selection(part, all, |all|)
    ensures PlacesKept(dirs, all) ==> PlacesKept(dirs, part)
    ensures !AnyDirectory(dirs, all) ==> !AnyDirectory(dirs, part)
  {
    SelectionPaths(part, all);
    forall k | 0 <= k < |part| ensures exists i :: 0 <= i < |all| && all[i] == part[k] {
      assert part[k] in all;
    }
  }

  lemma RestoresOfSelection(w: World, writes: seq<Write>, from: nat, part: seq<PatchFilePlan>, all: seq<PatchFilePlan>)
    requires Selection(part, all, |all|) && OnlyRestores(w, writes, from, part)
    ensures OnlyRestores(w, writes, from, all)
  {
    SelectionPaths(part, all);
  }

  lemma SelectionElsewhere(a: Files, b: Files, part: seq<PatchFilePlan>, all: seq<PatchFilePlan>)
    requires Selection(part, all, |all|) && SameElsewhere(a, b, part)
    ensures SameElsewhere(a, b, all)
  {
    SelectionPaths(part, all);
  }

  /** The first loop of the compensation: it only reads, and stops at a file that holds neither image. */
  method Classify(changed: seq<PatchFilePlan>, ws: Workspace)
    returns (outcome: ApplyOutcome, compensable: seq<PatchFilePlan>)
    requires WellFormed(changed)
    modifies ws
    ensures outcome in {ApplyFailed, UnknownOutcome, Raised}
    ensures ws.clock >= old(ws.clock) && ws.writes == old(ws.writes)
    ensures Quiet(ws.world) ==> ws.files == old(ws.files) && ws.dirs == old(ws.dirs)
    ensures outcome == ApplyFailed ==> Selection(compensable, changed, |changed|)
    ensures Quiet(ws.world) && outcome == ApplyFailed ==>
              AllPost(ws.files, compensable)
              && forall k :: 0 <= k < |changed| ==> Lookup(ws.files, changed[k].path) == changed[k].preImage
                                                    || changed[k] in compensable
    ensures Quiet(ws.world) && outcome == ApplyFailed ==>
              !AnyForeign(ws.files, changed) && !AnyDirectory(ws.dirs, changed)
    ensures Quiet(ws.world) && outcome == UnknownOutcome ==> AnyForeign(ws.files, changed)
    ensures QuietDirs(ws.world) ==> ws.dirs == old(ws.dirs)
    ensures QuietDirs(ws.world) && outcome == Raised ==>
              AnyDirectory(ws.dirs, changed) || FaultBetween(ws.world, old(ws.clock), ws.clock)
  {
    hide Selection, WellFormedPlan;
    compensable := [];
    EmptySelection(changed);
    for i := 0 to |changed|
      invariant ws.clock >= old(ws.clock) && ws.writes == old(ws.writes)
      invariant Quiet(ws.world) ==> ws.files == old(ws.files) && ws.dirs == old(ws.dirs)
      invariant QuietDirs(ws.world) ==> ws.dirs == old(ws.dirs)
      invariant Selection(compensable, changed, i)
      invariant Quiet(ws.world) ==> AllPost(ws.files, compensable)
      invariant Quiet(ws.world) ==> forall k :: 0 <= k < i ==>
                  && !ForeignContent(ws.files, changed[k]) && changed[k].path !in ws.dirs
                  && (Lookup(ws.files, changed[k].path) == changed[k].preImage || changed[k] in compensable)
    {
      var plan := changed[i];
      SelectionGrows(compensable, changed, i);
      var raised, current := ws.Read(plan.path);
      if raised {
        return Raised, compensable;
      }
      PreImageHash(plan, current);
      if Sha(current) == plan.preImageSha256 {
        continue;
      }
      if Sha(current) == plan.postImageSha256 {
        compensable := compensable + [plan];
        continue;
      }
      return UnknownOutcome, compensable;
    }
    outcome := ApplyFailed;
  }

  lemma EmptySelection(all: seq<PatchFilePlan>)
    ensures Selection([], all, 0)
  {
  }

  /** Only restorations careful of foreign changes, and only of files in the patch, are among the new writes. */
  ghost predicate CarefulWrites(w: World, writes: seq<Write>, from: nat, plans: seq<PatchFilePlan>) {
    forall k :: from <= k < |writes| && writes[k].Restore? ==> writes[k].plan in plans && CarefulRestore(w, writes[k])
  }

  lemma MidwayNotForeign(now: Files, before: Files, plans: seq<PatchFilePlan>, n: nat)
    requires 0 < n <= |plans| && Midway(now, before, plans, n - 1)
    ensures !AnyForeign(now, plans[..n])
  {
  }

  /** Compensation of an interrupted patch brings every planned or pre-existing file back to its old content. */
  lemma CompensatedOriginal(now: Files, mid: Files, before: Files, plans: seq<PatchFilePlan>, n: nat)
    requires WellFormed(plans) && AllPre(before, plans) && 0 < n <= |plans|
    requires Midway(mid, before, plans, n - 1)
    requires SameElsewhere(now, mid, plans[..n])
    ensures BystandersKept(now, before, plans)
    ensures AllPre(now, plans[..n]) ==> Original(now, before, plans)
  {
    PrefixPaths(plans, n);
    if AllPre(now, plans[..n]) {
      forall k | 0 <= k < |plans| ensures Lookup(now, plans[k].path) == Lookup(before, plans[k].path) {
        if k < n {
          assert plans[..n][k] == plans[k];
        } else {
          assert plans[k].path !in PathsOf(plans[..n]) by {
            assert forall j :: 0 <= j < n ==> plans[..n][j] == plans[j];
          }
        }
      }
    }
  }

  /** Plan `i` is the first that is blocked when it is reached. */
  predicate FirstBlocked(files: Files, dirs: set<Path>, plans: seq<PatchFilePlan>, i: nat)
    requires i < |plans|
  {
    BlockedAt(files, dirs, plans, i) && forall k :: 0 <= k < i ==> !BlockedAt(files, dirs, plans, k)
  }

  /** Plan `i` is the first that is blocked, and when it is reached the place of a plan begun has become a directory. */
  predicate TrappedAt(files: Files, dirs: set<Path>, plans: seq<PatchFilePlan>, i: nat)
    requires i < |plans|
  {
    FirstBlocked(files, dirs, plans, i) && AnyDirectory(DirsAfter(dirs, plans[..i]), plans[..i + 1])
  }

  predicate Trapped(files: Files, dirs: set<Path>, plans: seq<PatchFilePlan>) {
    exists i :: 0 <= i < |plans| && TrappedAt(files, dirs, plans, i)
  }

  /** Plan `i` is the first obstructed one, and a path begun by then lies above one that has been written. */
  predicate EnsnaredAt(files: Files, plans: seq<PatchFilePlan>, i: nat)
    requires i < |plans|
  {
    && Obstructed(files, plans, i) && (forall m :: 0 <= m < i ==> !Obstructed(files, plans, m))
    && exists k :: 0 <= k <= i && WrittenBelow(plans, i, plans[k].path)
  }

  predicate Ensnared(files: Files, plans: seq<PatchFilePlan>) {
    exists i :: 0 <= i < |plans| && EnsnaredAt(files, plans, i)
  }

  lemma TrappedNotLayable(files: Files, dirs: set<Path>, plans: seq<PatchFilePlan>)
    ensures Trapped(files, dirs, plans) ==> !Layable(files, dirs, plans)
  {
    hide BlockedAt;
  }

  /** Compensation is trapped exactly when the first obstructed plan comes after a write below a path begun by then. */
  lemma TrappedExactly(files: Files, dirs: set<Path>, plans: seq<PatchFilePlan>)
    requires WellFormed(plans) && !AnyDirectory(dirs, plans)
    ensures Trapped(files, dirs, plans) <==> Ensnared(files, plans)
  {
    hide TrappedAt, EnsnaredAt, WellFormedPlan, AnyDirectory;
    forall i | 0 <= i < |plans| ensures TrappedAt(files, dirs, plans, i) <==> EnsnaredAt(files, plans, i) {
      TrappedHere(files, dirs, plans, i);
    }
  }

  lemma TrappedHere(files: Files, dirs: set<Path>, plans: seq<PatchFilePlan>, i: nat)
    requires WellFormed(plans) && !AnyDirectory(dirs, plans) && i < |plans|
    ensures TrappedAt(files, dirs, plans, i) <==> EnsnaredAt(files, plans, i)
  {
    hide BlockedAt, Obstructed, DirsAfter, WellFormedPlan, AnyDirectory, WrittenBelow;
    forall m | 0 <= m < |plans| ensures BlockedAt(files, dirs, plans, m) <==> Obstructed(files, plans, m) {
      BlockedExactly(files, dirs, plans, m);
    }
    DirectoryAmong(dirs, plans, i);
  }

  lemma DirectoryAmong(dirs: set<Path>, plans: seq<PatchFilePlan>, i: nat)
    requires !AnyDirectory(dirs, plans) && i < |plans|
    ensures AnyDirectory(DirsAfter(dirs, plans[..i]), plans[..i + 1])
            <==> exists k :: 0 <= k <= i && WrittenBelow(plans, i, plans[k].path)
  {
    hide DirsAfter, WrittenBelow;
    var begun, now := plans[..i + 1], DirsAfter(dirs, plans[..i]);
    forall k | 0 <= k <= i ensures begun[k].path in now <==> WrittenBelow(plans, i, plans[k].path) {
      BelowExactly(dirs, plans, i, plans[k].path);
    }
  }

  /** What applying comes to when no call fails but by the shape of the tree. */
  function Fated(w: World, files: Files, dirs: set<Path>, plans: seq<PatchFilePlan>, authorized: bool): ApplyOutcome {
    if !authorized then Unauthorized
    else
      match Checked(w, files, dirs, plans)
      case Drift => Conflict
      case CheckRaised => Raised
      case Passed =>
        if Layable(files, dirs, plans) then Applied(plans)
        else if Trapped(files, dirs, plans) then Raised
        else ApplyFailed
  }

  /**
   * Writing was interrupted at plan `n - 1`: if by then the place of a plan begun is a directory, everything is left as
   * it was at that point, and otherwise compensation has restored it.
   */
  ghost predicate EndsBy(outcome: ApplyOutcome, now: Files, dirs: set<Path>, before: Files, plans: seq<PatchFilePlan>,
                         n: nat)
    requires 0 < n <= |plans|
  {
    if AnyDirectory(dirs, plans[..n]) then outcome == Raised && Midway(now, before, plans, n - 1)
    else outcome == ApplyFailed && Original(now, before, plans)
  }

  /** The first blocked plan decides whether compensation is trapped. */
  lemma FirstBlockedDecides(files: Files, dirs: set<Path>, plans: seq<PatchFilePlan>, i: nat)
    requires i < |plans| && FirstBlocked(files, dirs, plans, i)
    ensures !Layable(files, dirs, plans)
    ensures Trapped(files, dirs, plans) <==> AnyDirectory(DirsAfter(dirs, plans[..i]), plans[..i + 1])
  {
    hide BlockedAt, DirsAfter, AnyDirectory;
    assert TrappedAt(files, dirs, plans, i) <==> AnyDirectory(DirsAfter(dirs, plans[..i]), plans[..i + 1]);
    forall m | 0 <= m < |plans| && FirstBlocked(files, dirs, plans, m) ensures m == i {
    }
  }

  /** Compensation begins: where it may be trapped, and what it finds. */
  lemma Interruption(w: World, files: Files, dirs: set<Path>, files0: Files, dirs0: set<Path>,
                     plans: seq<PatchFilePlan>, i: nat)
    requires WellFormed(plans) && AllPre(files0, plans) && !AnyDirectory(dirs0, plans) && i < |plans|
    requires Stuck(files, dirs, files0, dirs0, plans, i)
    ensures Midway(files, files0, plans, i)
    ensures SoundTree(files0, dirs0) ==> PlacesKept(dirs, plans[..i + 1])
    ensures Layable(files0, dirs0, plans) && Undoable(plans) ==> !AnyDirectory(dirs, plans[..i + 1])
    ensures BlockedAt(files0, dirs0, plans, i) && (plans[i].path in DirsAfter(dirs0, plans[..i])
            || dirs == DirsAfter(dirs0, plans[..i])) ==>
              !Layable(files0, dirs0, plans)
              && (Trapped(files0, dirs0, plans) <==> AnyDirectory(dirs, plans[..i + 1]))
  {
    hide BlockedAt, DirsAfter, Midway, WellFormedPlan, Layable, Undoable;
    DirsGrow(dirs0, plans, i, i + 1);
    DirsGrow(dirs0, plans, i + 1, |plans|);
    assert plans[..|plans|] == plans;
    if SoundTree(files0, dirs0) {
      var begun := plans[..i + 1];
      forall k | 0 <= k < |begun| && begun[k].preImage != None ensures Parents(begun[k].path) <= dirs {
        assert begun[k] == plans[k];
      }
    }
    if Layable(files0, dirs0, plans) && Undoable(plans) {
      UndoableExactly(files0, dirs0, plans);
      FewerDirectories(dirs, DirsAfter(dirs0, plans), plans, i + 1);
    }
    if BlockedAt(files0, dirs0, plans, i) {
      assert FirstBlocked(files0, dirs0, plans, i);
      FirstBlockedDecides(files0, dirs0, plans, i);
      if plans[i].path in DirsAfter(dirs0, plans[..i]) {
        assert plans[..i + 1][i] == plans[i];
        InDirectory(dirs, plans[..i + 1], i);
        InDirectory(DirsAfter(dirs0, plans[..i]), plans[..i + 1], i);
      }
    }
  }

  lemma FewerDirectories(dirs: set<Path>, more: set<Path>, plans: seq<PatchFilePlan>, n: nat)
    requires n <= |plans| && dirs <= more && !AnyDirectory(more, plans)
    ensures !AnyDirectory(dirs, plans[..n])
  {
    assert forall k :: 0 <= k < n ==> plans[..n][k] == plans[k];
  }

  /**
   * The fated outcome, from the plans and the tree alone: a conflict exactly when the first plan that is not ready has
   * drifted, an exception when it is a directory, and otherwise what the layout of the patch decides.
   */
  lemma FatedExactly(w: World, files: Files, dirs: set<Path>, plans: seq<PatchFilePlan>, authorized: bool)
    requires WellFormed(plans)
    ensures var outcome := Fated(w, files, dirs, plans, authorized);
            var ready, writable := AllReady(w, files, dirs, plans), FilesAboveGo(files, plans) && NoWrittenAbove(plans);
            && (outcome == Unauthorized <==> !authorized)
            && (outcome == Conflict <==> authorized && Drifts(w, files, dirs, plans))
            && (outcome == Applied(plans) <==> authorized && ready && writable)
            && (outcome == ApplyFailed <==> authorized && ready && !writable && !Ensnared(files, plans))
            && (outcome == Raised <==>
                  authorized && (MeetsDirectory(w, files, dirs, plans) || (ready && Ensnared(files, plans))))
  {
    hide AllReady, Drifts, MeetsDirectory, Checked, Layable, Trapped, FilesAboveGo, NoWrittenAbove, Ensnared,
         WellFormedPlan, AllPre, AnyDirectory;
    CheckedExactly(w, files, dirs, plans);
    CheckedPasses(w, files, dirs, plans);
    TrappedNotLayable(files, dirs, plans);
    if AllReady(w, files, dirs, plans) {
      LayableExactly(files, dirs, plans);
      TrappedExactly(files, dirs, plans);
    }
  }

  /**
   * `apply`. Without interference: success means every planned file holds its new image and nothing else changed;
   * refusal means nothing changed; `apply_failed` means every planned or pre-existing file has its old content. If no
   * call fails but by the shape of the tree, the outcome is exactly the fated one. With at most one failure anywhere
   * else, a patch that can be laid and undone is applied or leaves the old content; one that cannot be undone is left
   * as it is exactly when the place of a plan begun has become a directory. With interference: what compensation
   * overwrites, it has just seen to be the patch's own new image.
   */
  method Apply(plans: seq<PatchFilePlan>, authorized: bool, ws: Workspace) returns (outcome: ApplyOutcome)
    requires WellFormed(plans)
    modifies ws
    ensures ws.clock >= old(ws.clock)
    ensures outcome in {Unauthorized, Conflict} ==> ws.writes == old(ws.writes)
    ensures old(ws.writes) <= ws.writes && CarefulWrites(ws.world, ws.writes, |old(ws.writes)|, plans)
    ensures Calm(ws.world, PathsOf(plans)) ==>
              && (outcome.Applied? ==> outcome.files == plans && ws.files == Patched(old(ws.files), plans)
                                       && ws.dirs == DirsAfter(old(ws.dirs), plans))
              && (outcome in {Unauthorized, Conflict} ==> ws.files == old(ws.files))
              && (outcome == ApplyFailed ==> Original(ws.files, old(ws.files), plans))
              && outcome != UnknownOutcome
              && BystandersKept(ws.files, old(ws.files), plans)
    ensures outcome == Unauthorized <==> !authorized
    ensures Quiet(ws.world) && outcome == Conflict ==> Drifts(ws.world, old(ws.files), old(ws.dirs), plans)
    ensures Quiet(ws.world) && authorized && FaultFree(ws.world, old(ws.clock)) ==>
              (outcome == Conflict <==> Drifts(ws.world, old(ws.files), old(ws.dirs), plans))
    ensures Quiet(ws.world) && authorized && MeetsDirectory(ws.world, old(ws.files), old(ws.dirs), plans) ==>
              outcome == Raised && ws.files == old(ws.files) && ws.writes == old(ws.writes)
    ensures Calm(ws.world, PathsOf(plans)) && outcome.Applied? ==>
              ChecksPass(ws.world, old(ws.files), old(ws.dirs), plans) && Layable(old(ws.files), old(ws.dirs), plans)
    ensures Calm(ws.world, PathsOf(plans)) && SoundTree(old(ws.files), old(ws.dirs))
            && FaultFree(ws.world, old(ws.clock)) ==>
              outcome == Fated(ws.world, old(ws.files), old(ws.dirs), plans, authorized)
    ensures Calm(ws.world, PathsOf(plans)) && SoundTree(old(ws.files), old(ws.dirs)) && AtMostOneFault(ws.world)
            && Layable(old(ws.files), old(ws.dirs), plans) && outcome in {Raised, ApplyFailed} ==>
              || ws.files == old(ws.files)
              || exists n :: 0 < n <= |plans| && EndsBy(outcome, ws.files, ws.dirs, old(ws.files), plans, n)
    ensures Calm(ws.world, PathsOf(plans)) && SoundTree(old(ws.files), old(ws.dirs)) && AtMostOneFault(ws.world)
            && Layable(old(ws.files), old(ws.dirs), plans) && Undoable(plans) && outcome == Raised ==>
              ws.files == old(ws.files)
  {
    hide WellFormedPlan, CarefulRestore, Midway, SameElsewhere, AnyForeign, Checked, Layable, Trapped, AllPre,
         AnyDirectory, PlacesKept, Stuck, BlockedAt, Undoable, SoundTree, Patched, DirsAfter, Original,
         BystandersKept, FaultFree, FaultBetween, AllReady, Drifts, MeetsDirectory;
    BystandersUntouched(ws.files, plans);
    CheckedExactly(ws.world, ws.files, ws.dirs, plans);
    if !authorized {
      return Unauthorized;
    }
    var checked := CheckPreImages(plans, ws);
    CheckedPasses(ws.world, old(ws.files), old(ws.dirs), plans);
    LaterFaults(ws.world, old(ws.clock), old(ws.clock), ws.clock);
    if checked == Drift {
      return Conflict;
    }
    if checked == CheckRaised {
      return Raised;
    }
    ghost var start := ws.clock;
    var raised, changed := InstallAll(plans, ws);
    LaterFaults(ws.world, old(ws.clock), start, ws.clock);
    if !raised {
      if Calm(ws.world, PathsOf(plans)) {
        PatchedAt(old(ws.files), plans);
        ElsewhereKept(ws.files, old(ws.files), plans);
      }
      return Applied(plans);
    }
    ghost var mid, midDirs, written, handler, i := ws.files, ws.dirs, ws.writes, ws.clock, |changed| - 1;
    PrefixWellFormed(plans, |changed|);
    assert changed == plans[..i + 1];
    outcome := Compensate(changed, ws);
    CompensationCareful(ws.world, old(ws.writes), written, ws.writes, changed, plans);
    if Calm(ws.world, PathsOf(plans)) {
      Interruption(ws.world, mid, midDirs, old(ws.files), old(ws.dirs), plans, i);
      MidwayNotForeign(mid, old(ws.files), plans, i + 1);
      CompensatedOriginal(ws.files, mid, old(ws.files), plans, i + 1);
      LaterFaults(ws.world, old(ws.clock), handler, handler);
      LayableHere(old(ws.files), old(ws.dirs), plans, i);
      if AtMostOneFault(ws.world) && FaultBetween(ws.world, start, handler) {
        NoFurtherFault(ws.world, start, handler);
        if SoundTree(old(ws.files), old(ws.dirs)) {
          assert EndsBy(outcome, ws.files, ws.dirs, old(ws.files), plans, i + 1);
        }
      }
    }
  }

  lemma LayableHere(files: Files, dirs: set<Path>, plans: seq<PatchFilePlan>, i: nat)
    requires i < |plans|
    ensures Layable(files, dirs, plans) ==> !BlockedAt(files, dirs, plans, i)
  {
  }

  lemma BystandersUntouched(files: Files, plans: seq<PatchFilePlan>)
    ensures BystandersKept(files, files, plans)
  {
  }

  lemma ElsewhereKept(a: Files, b: Files, plans: seq<PatchFilePlan>)
    requires SameElsewhere(a, b, plans)
    ensures BystandersKept(a, b, plans)
  {
  }

  lemma CompensationCareful(w: World, first: seq<Write>, mid: seq<Write>, last: seq<Write>,
                            changed: seq<PatchFilePlan>, plans: seq<PatchFilePlan>)
    requires first <= mid <= last && changed <= plans
    requires forall k :: |first| <= k < |mid| ==> !mid[k].Restore?
    requires OnlyRestores(w, last, |mid|, changed)
    ensures first <= last && CarefulWrites(w, last, |first|, plans)
  {
    assert forall k :: 0 <= k < |mid| ==> mid[k] == last[k];
  }
}
