/** `patching/rollback.py`: putting the old images back, last file first, wherever the new image is still in place. */
module Rollback {
  import opened Base
  import opened PatchModels
  import opened Workspaces

  datatype RollbackOutcome = RolledBack | RollbackConflict | RollbackRaised

  /** The files after the new images of `plans` have been put in place, in order. */
  function Patched(files: Files, plans: seq<PatchFilePlan>): Files {
    if plans == [] then files
    else
      var last := plans[|plans| - 1];
      Put(Patched(files, plans[..|plans| - 1]), last.path, last.postImage)
  }

  /** The files after the old images of `plans` have been put back, last one first. */
  function Undone(files: Files, plans: seq<PatchFilePlan>): Files
    decreases |plans|
  {
    if plans == [] then files
    else
      var last := plans[|plans| - 1];
      Undone(Put(files, last.path, last.preImage), plans[..|plans| - 1])
  }

  /** Each file of `plans` holds its new image. */
  predicate AllPost(files: Files, plans: seq<PatchFilePlan>) {
    forall i :: 0 <= i < |plans| ==> Lookup(files, plans[i].path) == plans[i].postImage
  }

  /** Each file of `plans` holds its old image. */
  predicate AllPre(files: Files, plans: seq<PatchFilePlan>) {
    forall i :: 0 <= i < |plans| ==> Lookup(files, plans[i].path) == plans[i].preImage
  }

  /** The place of one of these files is a directory. */
  predicate AnyDirectory(dirs: set<Path>, plans: seq<PatchFilePlan>) {
    exists i :: 0 <= i < |plans| && plans[i].path in dirs
  }

  /** The directories that the old images go in are there. */
  predicate PlacesKept(dirs: set<Path>, plans: seq<PatchFilePlan>) {
    forall i :: 0 <= i < |plans| && plans[i].preImage != None ==> Parents(plans[i].path) <= dirs
  }

  /** Files that no plan names are the same in both. */
  ghost predicate SameElsewhere(a: Files, b: Files, plans: seq<PatchFilePlan>) {
    forall p: Path :: p !in PathsOf(plans) ==> Lookup(a, p) == Lookup(b, p)
  }

  lemma LookupPut(files: Files, path: Path, image: Option<Bytes>, p: Path)
    ensures Lookup(Put(files, path, image), p) == if p == path then image else Lookup(files, p)
  {
  }

  lemma PathsOfPrefix(plans: seq<PatchFilePlan>)
    requires plans != []
    ensures PathsOf(plans) == PathsOf(plans[..|plans| - 1]) + {plans[|plans| - 1].path}
  {
    var front := plans[..|plans| - 1];
    forall p | p in PathsOf(front) + {plans[|plans| - 1].path} ensures p in PathsOf(plans) {
      if p in PathsOf(front) {
        var i :| 0 <= i < |front| && front[i].path == p;
        assert plans[i].path == p;
      }
    }
    forall p | p in PathsOf(plans) ensures p in PathsOf(front) + {plans[|plans| - 1].path} {
      var i :| 0 <= i < |plans| && plans[i].path == p;
      if i < |front| {
        assert front[i].path == p;
      }
    }
  }

  lemma PrefixWellFormed(plans: seq<PatchFilePlan>, n: nat)
    requires WellFormed(plans) && n <= |plans|
    ensures WellFormed(plans[..n])
    ensures n < |plans| ==> plans[n].path !in PathsOf(plans[..n])
  {
  }

  /** Patching sets exactly the named files to their new images. */
  lemma {:induction false} PatchedAt(files: Files, plans: seq<PatchFilePlan>)
    requires DistinctPaths(plans)
    ensures AllPost(Patched(files, plans), plans)
    ensures SameElsewhere(Patched(files, plans), files, plans)
  {
    if plans != [] {
      var front, last := plans[..|plans| - 1], plans[|plans| - 1];
      PatchedAt(files, front);
      PathsOfPrefix(plans);
      var before := Patched(files, front);
      forall p: Path ensures Lookup(Patched(files, plans), p) == if p == last.path
        then last.postImage else Lookup(before, p) {
        LookupPut(before, last.path, last.postImage, p);
      }
      forall i | 0 <= i < |plans| ensures Lookup(Patched(files, plans), plans[i].path) == plans[i].postImage {
        if i < |front| {
          assert front[i] == plans[i];
        }
      }
    }
  }

  /** Undoing sets exactly the named files to their old images. */
  lemma {:induction false} UndoneAt(files: Files, plans: seq<PatchFilePlan>)
    requires DistinctPaths(plans)
    ensures AllPre(Undone(files, plans), plans)
    ensures SameElsewhere(Undone(files, plans), files, plans)
    decreases |plans|
  {
    if plans != [] {
      var front, last := plans[..|plans| - 1], plans[|plans| - 1];
      var next := Put(files, last.path, last.preImage);
      UndoneAt(next, front);
      PathsOfPrefix(plans);
      assert last.path !in PathsOf(front);
      forall p: Path ensures Lookup(next, p) == if p == last.path then last.preImage else Lookup(files, p) {
        LookupPut(files, last.path, last.preImage, p);
      }
      forall i | 0 <= i < |plans| ensures Lookup(Undone(files, plans), plans[i].path) == plans[i].preImage {
        if i < |front| {
          assert front[i] == plans[i];
        }
      }
    }
  }

  lemma SameFiles(a: Files, b: Files)
    requires forall p: Path :: Lookup(a, p) == Lookup(b, p)
    ensures a == b
  {
    assert forall p: Path :: p in a <==> p in b by {
      forall p: Path ensures p in a <==> p in b {
        assert Lookup(a, p) == Lookup(b, p);
      }
    }
    forall p | p in a ensures a[p] == b[p] {
      assert Lookup(a, p) == Lookup(b, p);
    }
  }

  /** Rolling an applied patch back restores the files exactly. */
  lemma UndoPatched(files: Files, plans: seq<PatchFilePlan>)
    requires DistinctPaths(plans) && AllPre(files, plans)
    ensures Undone(Patched(files, plans), plans) == files
  {
    PatchedAt(files, plans);
    UndoneAt(Patched(files, plans), plans);
    forall p: Path ensures Lookup(Undone(Patched(files, plans), plans), p) == Lookup(files, p) {
      if p in PathsOf(plans) {
        var i :| 0 <= i < |plans| && plans[i].path == p;
      }
    }
    SameFiles(Undone(Patched(files, plans), plans), files);
  }

  /** What is written back is written where the new image was just seen, unless someone changed the file since. */
  ghost predicate CarefulRestore(w: World, e: Write) {
    e.Restore? ==>
      && e.seen == e.plan.postImage
      && (e.overwritten != e.plan.postImage ==> Disturbed(w, e.tick, e.plan.path))
  }

  /** Everything written from the `from`-th write on is a careful restoration of one of `plans`. */
  ghost predicate OnlyRestores(w: World, writes: seq<Write>, from: nat, plans: seq<PatchFilePlan>) {
    forall k :: from <= k < |writes| ==> writes[k].Restore? && writes[k].plan in plans && CarefulRestore(w, writes[k])
  }

  lemma ShaInjective(a: Option<Bytes>, b: Option<Bytes>)
    requires Sha(a) == Sha(b)
    ensures a == b
  {
  }

  /** At most one write was added, and it is a careful restoration of `plan`. */
  ghost predicate OneRestore(w: World, before: seq<Write>, after: seq<Write>, plan: PatchFilePlan) {
    after == before
    || exists e: Write :: after == before + [e] && e.Restore? && e.plan == plan && CarefulRestore(w, e)
  }

  lemma AddRestore(w: World, first: seq<Write>, before: seq<Write>, after: seq<Write>, plans: seq<PatchFilePlan>,
                   plan: PatchFilePlan)
    requires first <= before && OnlyRestores(w, before, |first|, plans)
    requires OneRestore(w, before, after, plan) && plan in plans
    ensures first <= after && OnlyRestores(w, after, |first|, plans)
  {
  }

  /** One round of the loop: put one file back if its new image is still in place. */
  method RestoreOne(plan: PatchFilePlan, ws: Workspace) returns (outcome: RollbackOutcome)
    requires WellFormedPlan(plan)
    modifies ws
    ensures ws.clock >= old(ws.clock)
    ensures OneRestore(ws.world, old(ws.writes), ws.writes, plan)
    ensures Quiet(ws.world) ==> forall p: Path :: p != plan.path ==> Lookup(ws.files, p) == Lookup(old(ws.files), p)
    ensures Quiet(ws.world) && outcome == RolledBack ==>
              ws.files == Put(old(ws.files), plan.path, plan.preImage)
                && Lookup(old(ws.files), plan.path) == plan.postImage
    ensures Quiet(ws.world) && outcome == RollbackConflict ==> Lookup(old(ws.files), plan.path) != plan.postImage
    ensures Quiet(ws.world) ==>
              ws.dirs == old(ws.dirs) && (plan.path in ws.dirs ==>
                outcome == RollbackRaised && ws.files == old(ws.files))
    ensures QuietDirs(ws.world) ==> ws.dirs == old(ws.dirs)
    ensures QuietDirs(ws.world) && FaultFree(ws.world, old(ws.clock)) && PlacesKept(ws.dirs, [plan])
            && plan.path !in ws.dirs ==>
              outcome != RollbackRaised
  {
    assert PlacesKept(ws.dirs, [plan]) ==> ([plan][0].preImage != None ==> Parents([plan][0].path) <= ws.dirs);
    var raised, current := ws.Read(plan.path);
    if raised {
      return RollbackRaised;
    }
    if Sha(current) != plan.postImageSha256 {
      return RollbackConflict;
    }
    ShaInjective(current, plan.postImage);
    ghost var before, tick, writes := ws.files, ws.clock, ws.writes;
    raised := ws.PutBack(plan, current);
    assert ws.writes != writes ==> ws.writes[|writes|].Restore?;
    if Lookup(ws.world.foreign(tick, before), plan.path) != Lookup(before, plan.path) {
      assert Disturbed(ws.world, tick, plan.path);
    }
    outcome := if raised then RollbackRaised else RolledBack;
  }

  lemma OnePlace(dirs: set<Path>, plans: seq<PatchFilePlan>, i: nat)
    requires i < |plans|
    ensures PlacesKept(dirs, plans) ==> PlacesKept(dirs, [plans[i]])
  {
  }

  lemma NoRestoresYet(w: World, writes: seq<Write>, plans: seq<PatchFilePlan>)
    ensures OnlyRestores(w, writes, |writes|, plans)
  {
  }

  lemma SameAsItself(a: Files, plans: seq<PatchFilePlan>)
    ensures SameElsewhere(a, a, plans)
  {
  }

  lemma SameElsewhereStep(a: Files, b: Files, c: Files, plans: seq<PatchFilePlan>, i: nat)
    requires i < |plans| && SameElsewhere(b, a, plans)
    requires forall p: Path :: p != plans[i].path ==> Lookup(c, p) == Lookup(b, p)
    ensures SameElsewhere(c, a, plans)
  {
    assert plans[i].path in PathsOf(plans);
  }

  method Rollback(changed: seq<PatchFilePlan>, ws: Workspace) returns (outcome: RollbackOutcome)
    requires WellFormed(changed)
    modifies ws
    ensures ws.clock >= old(ws.clock)
    ensures old(ws.writes) <= ws.writes
    ensures OnlyRestores(ws.world, ws.writes, |old(ws.writes)|, changed)
    ensures Quiet(ws.world) ==> SameElsewhere(ws.files, old(ws.files), changed)
    ensures Quiet(ws.world) && outcome == RolledBack ==> ws.files == Undone(old(ws.files), changed)
    ensures Quiet(ws.world) && AllPost(old(ws.files), changed) ==> outcome != RollbackConflict
    ensures Quiet(ws.world) && !AllPost(old(ws.files), changed) ==> outcome != RolledBack
    ensures Quiet(ws.world) ==> ws.dirs == old(ws.dirs) && (AnyDirectory(ws.dirs, changed) ==> outcome != RolledBack)
    ensures Quiet(ws.world) ==> UntouchedIn(ws.dirs, ws.files, old(ws.files), changed)
    ensures QuietDirs(ws.world) ==> ws.dirs == old(ws.dirs)
    ensures QuietDirs(ws.world) && FaultFree(ws.world, old(ws.clock)) && PlacesKept(ws.dirs, changed)
            && !AnyDirectory(ws.dirs, changed) ==>
              outcome != RollbackRaised
  {
    hide PlacesKept, CarefulRestore, OnlyRestores, OneRestore, WellFormedPlan, Quiet, UndoneTo, SameElsewhere,
         UntouchedIn;
    var i := |changed|;
    NothingUndone(ws.files, ws.dirs, changed);
    NoRestoresYet(ws.world, ws.writes, changed);
    while i > 0
      invariant 0 <= i <= |changed|
      invariant ws.clock >= old(ws.clock)
      invariant old(ws.writes) <= ws.writes
      invariant OnlyRestores(ws.world, ws.writes, |old(ws.writes)|, changed)
      invariant QuietDirs(ws.world) ==> ws.dirs == old(ws.dirs)
      invariant Quiet(ws.world) ==> ws.dirs == old(ws.dirs) && UndoneTo(ws.files, ws.dirs, old(ws.files), changed, i)
    {
      i := i - 1;
      ghost var before, writes := ws.files, ws.writes;
      assert changed[i] in changed;
      OnePlace(ws.dirs, changed, i);
      outcome := RestoreOne(changed[i], ws);
      AddRestore(ws.world, old(ws.writes), writes, ws.writes, changed, changed[i]);
      if Quiet(ws.world) {
        UndoneOneMore(ws.files, before, ws.dirs, old(ws.files), changed, i);
      }
      if outcome != RolledBack {
        return;
      }
    }
    outcome := RolledBack;
    AllUndone(ws.files, ws.dirs, old(ws.files), changed);
  }

  /** Files whose place is a directory are as they were. */
  ghost predicate UntouchedIn(dirs: set<Path>, now: Files, before: Files, changed: seq<PatchFilePlan>) {
    forall k :: 0 <= k < |changed| && changed[k].path in dirs ==>
                Lookup(now, changed[k].path) == Lookup(before, changed[k].path)
  }

  /** The loop has come down to `i`: the files from there on held their new images and hold their old ones again. */
  ghost predicate UndoneTo(now: Files, dirs: set<Path>, before: Files, changed: seq<PatchFilePlan>, i: nat)
    requires i <= |changed|
  {
    && Undone(before, changed) == Undone(now, changed[..i])
    && SameElsewhere(now, before, changed)
    && (forall k :: 0 <= k < i ==> Lookup(now, changed[k].path) == Lookup(before, changed[k].path))
    && (forall k :: i <= k < |changed| ==> Lookup(before, changed[k].path) == changed[k].postImage
                                           && changed[k].path !in dirs)
  }

  lemma NothingUndone(files: Files, dirs: set<Path>, changed: seq<PatchFilePlan>)
    ensures UndoneTo(files, dirs, files, changed, |changed|)
  {
    assert changed[..|changed|] == changed;
  }

  lemma AllUndone(now: Files, dirs: set<Path>, before: Files, changed: seq<PatchFilePlan>)
    ensures UndoneTo(now, dirs, before, changed, 0) ==>
              UntouchedIn(dirs, now, before, changed) &&
              now == Undone(before, changed) && SameElsewhere(now, before, changed) && AllPost(before, changed)
                && !AnyDirectory(dirs, changed)
  {
  }

  /** What the round at `i` leaves, by its outcome. */
  lemma UndoneOneMore(now: Files, last: Files, dirs: set<Path>, before: Files, changed: seq<PatchFilePlan>, i: nat)
    requires WellFormed(changed) && i < |changed| && UndoneTo(last, dirs, before, changed, i + 1)
    requires forall p: Path :: p != changed[i].path ==> Lookup(now, p) == Lookup(last, p)
    ensures SameElsewhere(now, before, changed)
    ensures Lookup(last, changed[i].path) != changed[i].postImage ==> !AllPost(before, changed)
    ensures now == Put(last, changed[i].path, changed[i].preImage)
            && Lookup(last, changed[i].path) == changed[i].postImage
            && changed[i].path !in dirs ==>
              UndoneTo(now, dirs, before, changed, i)
    ensures changed[i].path in dirs ==> AnyDirectory(dirs, changed)
    ensures changed[i].path !in dirs || now == last ==> UntouchedIn(dirs, now, before, changed)
  {
    hide SameElsewhere, WellFormedPlan;
    assert changed[..i + 1][..i] == changed[..i];
    SameElsewhereStep(before, last, now, changed, i);
  }
}
