/** Small patches whose paths lie below one another: accepted by the preparer, and not all written or taken back. */
module PatchNesting {
  import opened Base
  import opened PatchModels
  import opened Lines
  import opened PatchRoundTrip
  import opened Workspaces
  import opened Rollback
  import opened PatchLayout
  import opened Applier
  import opened PatchTransaction
  import Utf8

  const DELETE_ABOVE := Script("a", Delete, "", [Del("x")])
  const CREATE_ABOVE := Script("a", Create, "", [Add("y")])
  const CREATE_BELOW := Script("a/b", Create, "", [Add("y")])
  const ONE_FILE: Files := map["a" := Utf8.Encode("x\n")]

  lemma TwoPlans(s: Script, t: Script)
    ensures SectionsOf([s, t]).plans == [PlanOf(s), PlanOf(t)]
    ensures forall files: Files :: AllFit([s, t], files, {}) <==> s.path != t.path && Fits(s, files) && Fits(t, files)
  {
    hide PlanOf, Fits;
    assert [s, t][1..] == [t] && [t][1..] == [];
    assert SectionsOf([]).plans == [];
    forall files: Files ensures AllFit([s, t], files, {}) <==> s.path != t.path && Fits(s, files) && Fits(t, files) {
      assert AllFit([t], files, {} + {s.path}) <==> s.path != t.path && Fits(t, files);
    }
  }

  lemma SafeNames()
    ensures Renderable(DELETE_ABOVE) && Renderable(CREATE_ABOVE) && Renderable(CREATE_BELOW)
    ensures Above("a", "a/b") && !Above("a/b", "a") && !Above("a", "a") && !Above("a/b", "a/b")
  {
    OneLetterPathIsSafe("a");
    assert SafePath("a/b") by {
      assert "a/b"[1..] == "/b" && "/b"[1..] == "b" && "b"[1..] == "";
      assert SplitOn("", '/') == [""];
      assert ['b'] + "" == "b" && ['a'] + "" == "a";
      assert SplitOn("b", '/') == ["b"];
      assert SplitOn("/b", '/') == ["", "b"];
      assert SplitOn("a/b", '/') == ["a", "b"];
    }
    assert "a/b"[..1] == "a";
  }

  /** A file is deleted and one is created in a directory of its name: this can be written, and not taken back. */
  lemma DeleteThenCreateBelow()
    ensures var scripts := [DELETE_ABOVE, CREATE_BELOW];
            var plans := SectionsOf(scripts).plans;
            && AllRenderable(scripts) && NoHeaderLookalikes(scripts) && AllFit(scripts, ONE_FILE, {})
            && FilesAboveGo(ONE_FILE, plans) && NoWrittenAbove(plans) && !Undoable(plans)
  {
    hide Utf8.Encode, SafePath, AllFit, SectionsOf;
    TwoPlans(DELETE_ABOVE, CREATE_BELOW);
    SafeNames();
    DeletedText();
    var plans := [PlanOf(DELETE_ABOVE), PlanOf(CREATE_BELOW)];
    assert Above(plans[0].path, plans[1].path);
    assert DeletedBefore(plans, 1, "a") by {
      assert plans[0].path == "a" && plans[0].postImage == None;
    }
  }

  lemma DeletedText()
    ensures OldText([Del("x")]) == "x\n"
  {
    assert [Del("x")][1..] == [];
    assert OldText([]) == "";
  }

  /** In the other order the new file finds a file where its directory should be. */
  lemma CreateBelowThenDelete()
    ensures var scripts := [CREATE_BELOW, DELETE_ABOVE];
            var plans := SectionsOf(scripts).plans;
            && AllRenderable(scripts) && NoHeaderLookalikes(scripts) && AllFit(scripts, ONE_FILE, {})
            && !FilesAboveGo(ONE_FILE, plans) && NoWrittenAbove(plans)
  {
    hide Utf8.Encode, SafePath, AllFit, SectionsOf;
    TwoPlans(CREATE_BELOW, DELETE_ABOVE);
    SafeNames();
    DeletedText();
    var plans := [PlanOf(CREATE_BELOW), PlanOf(DELETE_ABOVE)];
    assert plans[0].postImage != None && "a" in ONE_FILE && Above("a", plans[0].path);
    assert !DeletedBefore(plans, 0, "a");
  }

  /**
   * Two new files, one where the other has its directory: compensation is trapped, so that applying raises by itself.
   */
  lemma CreateBelowThenAbove()
    ensures var scripts := [CREATE_BELOW, CREATE_ABOVE];
            var plans := SectionsOf(scripts).plans;
            && AllRenderable(scripts) && NoHeaderLookalikes(scripts) && AllFit(scripts, map[], {})
            && !NoWrittenAbove(plans) && Trapped(map[], {}, plans)
  {
    hide Utf8.Encode, SafePath, AllFit, SectionsOf, Patched;
    TwoPlans(CREATE_BELOW, CREATE_ABOVE);
    SafeNames();
    var plans := [PlanOf(CREATE_BELOW), PlanOf(CREATE_ABOVE)];
    assert Above(plans[1].path, plans[0].path);
    BlockedSecond(plans[0], plans[1]);
  }

  /** On an empty tree: the second of two plans is blocked by the directory of the first. */
  lemma BlockedSecond(first: PatchFilePlan, second: PatchFilePlan)
    requires first.postImage != None && Above(second.path, first.path)
    ensures Trapped(map[], {}, [first, second])
  {
    var plans := [first, second];
    assert plans[..0] == [] && plans[..1] == [first] && plans[..2] == plans;
    assert Patched(map[], []) == map[] && DirsAfter({}, []) == {};
    assert !BlockedAt(map[], {}, plans, 0);
    DirsAfterAre({}, plans[..1], second.path);
    assert plans[..1][0].postImage != None && Above(second.path, plans[..1][0].path);
    assert BlockedAt(map[], {}, plans, 1);
    assert FirstBlocked(map[], {}, plans, 1);
    InDirectory(DirsAfter({}, plans[..1]), plans, 1);
    assert TrappedAt(map[], {}, plans, 1);
  }

  /** What comes of the first of these patches: everything works, and the file that was deleted is not brought back. */
  method NotTakenBack(ws: Workspace) returns (applied: ApplyOutcome, undone: Option<RollbackOutcome>)
    requires ws.files == ONE_FILE && ws.dirs == {} && FaultFree(ws.world, ws.clock)
    requires Calm(ws.world, {"a", "a/b"}) && !ws.world.symlink("a") && !ws.world.symlink("a/b")
    modifies ws
    ensures applied.Applied? && undone == Some(RollbackRaised) && ws.files != ONE_FILE
  {
    hide AllFit, SectionsOf, Utf8.Encode, FilesAboveGo, NoWrittenAbove, Undoable, PlanOf;
    var scripts := [DELETE_ABOVE, CREATE_BELOW];
    DeleteThenCreateBelow();
    TwoPlans(DELETE_ABOVE, CREATE_BELOW);
    ThePlans();
    var between;
    applied, between, undone := ApplyThenRollBack(scripts, ws);
  }

  lemma ThePlans()
    ensures PlanOf(DELETE_ABOVE).path == "a" && PlanOf(CREATE_BELOW).path == "a/b"
    ensures PathsOf([PlanOf(DELETE_ABOVE), PlanOf(CREATE_BELOW)]) == {"a", "a/b"}
  {
    hide Utf8.Encode;
    var plans := [PlanOf(DELETE_ABOVE), PlanOf(CREATE_BELOW)];
    assert plans[0].path in PathsOf(plans) && plans[1].path in PathsOf(plans);
  }

  /**
   * The write loop of the same patch with one more file, and the disk fails at that file: compensation finds the
   * directory, raises, and leaves the first file deleted and the second in place.
   */
  method DiskErrorAtThird(third: PatchFilePlan, ws: Workspace) returns (raised: seq<bool>, outcome: ApplyOutcome)
    requires WellFormedPlan(third) && third.path !in {"a", "a/b"} && third.preImage == None
    requires ws.files == ONE_FILE && ws.dirs == {} && Calm(ws.world, {"a", "a/b", third.path})
    modifies ws
    ensures raised == [false, false, true] ==> outcome == Raised && "a" !in ws.files && "a/b" in ws.files
  {
    hide Utf8.Encode, Quiet, FreshTemps, FaultFree, SameElsewhere, PlacesKept, AllPre, OnlyRestores, Blocked;
    ghost var planned := {"a", "a/b", third.path};
    var plans := [PlanOf(DELETE_ABOVE), PlanOf(CREATE_BELOW), third];
    outcome := Raised;
    var r1 := InstallOne(plans[0], planned, ws);
    var r2 := InstallOne(plans[1], planned, ws);
    var r3 := InstallOne(plans[2], planned, ws);
    raised := [r1, r2, r3];
    if raised == [false, false, true] {
      assert Above("a", "a/b") by { SafeNames(); }
      assert plans[0].path in ws.dirs;
      assert Lookup(ws.files, "a") == None && Lookup(ws.files, "a/b") == plans[1].postImage;
      outcome := Compensate(plans, ws);
    }
  }
}
