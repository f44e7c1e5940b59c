/**
 * The workspace a patch is applied to: a mutable tree of files and directories, reached only through I/O calls. A call
 * fails when the tree does not allow it, and otherwise whenever a `World` says so; what such a failure leaves behind
 * and what other processes do meanwhile is up to the `World` too.
 */
module Workspaces {
  import opened Base
  import opened PatchModels

  /** A call may fail without effect, or fail although its effect (or part of it) took place. */
  datatype Fault = NoFault | FailsBefore | FailsAfter

  datatype World = World(
    fault: nat -> Fault,
    debris: nat -> Bytes,
    depth: nat -> nat,
    tempName: (nat, set<Path>) -> Path,
    foreign: (nat, Files) -> Files,
    foreignDirs: (nat, set<Path>) -> set<Path>,
    symlink: Path -> bool)

  /** No other process changes the workspace. */
  ghost predicate Quiet(w: World) {
    && (forall t: nat, files: Files :: w.foreign(t, files) == files)
    && (forall t: nat, dirs: set<Path> :: w.foreignDirs(t, dirs) == dirs)
  }

  /** No other process makes or removes directories; what it does to files is another matter. */
  ghost predicate QuietDirs(w: World) {
    forall t: nat, dirs: set<Path> :: w.foreignDirs(t, dirs) == dirs
  }

  ghost predicate FaultFree(w: World, from: nat) {
    forall t: nat :: from <= t ==> w.fault(t) == NoFault
  }

  ghost predicate AtMostOneFault(w: World) {
    forall s: nat, t: nat :: w.fault(s) != NoFault && w.fault(t) != NoFault ==> s == t
  }

  /** Temporary names are unused when they are chosen, and never the name of a file in the patch. */
  ghost predicate FreshTemps(w: World, planned: set<Path>) {
    forall t: nat, used: set<Path> :: w.tempName(t, used) !in used && w.tempName(t, used) !in planned
  }

  /** Another process changes `path` just before call `t`. */
  ghost predicate Disturbed(w: World, t: nat, path: Path) {
    exists files: Files :: Lookup(w.foreign(t, files), path) != Lookup(files, path)
  }

  /** A change this process makes: a temporary file, the new image of a file, or an old image put back. */
  datatype Write =
    | TempFile(path: Path)
    | Install(plan: PatchFilePlan)
    | Remove(plan: PatchFilePlan)
    | Restore(plan: PatchFilePlan, tick: nat, seen: Option<Bytes>, overwritten: Option<Bytes>)

  function Put(files: Files, path: Path, image: Option<Bytes>): Files {
    if image == None then files - {path} else files[path := image.value]
  }

  // ---------------------------------------------------------------- directories

  /** `path` lies in the directory named `a`, or in one below it. */
  predicate Above(a: Path, path: Path) {
    |a| < |path| && path[|a|] == '/' && path[..|a|] == a
  }

  /** The directories that a path lies in, other than the root. */
  function Parents(path: Path): (parents: set<Path>)
    ensures forall a: Path :: a in parents <==> Above(a, path)
  {
    set n | 0 <= n < |path| && path[n] == '/' :: path[..n]
  }

  /** There is a file where `path` needs a directory. */
  predicate FileAbove(files: Files, path: Path) {
    exists a :: a in files && Above(a, path)
  }

  /** A tree: nothing is both a file and a directory, and everything lies in directories. */
  ghost predicate SoundTree(files: Files, dirs: set<Path>) {
    && (forall p: Path :: p in files ==> p !in dirs)
    && (forall p: Path, a: Path :: (p in files || p in dirs) && Above(a, p) ==> a in dirs)
  }

  class Workspace {
    var files: Files
    var dirs: set<Path>
    var clock: nat
    ghost var writes: seq<Write>
    const world: World

    constructor (files: Files, dirs: set<Path>, world: World)
      ensures this.files == files && this.dirs == dirs && this.world == world && clock == 0 && writes == []
    {
      this.files, this.dirs, this.world, clock, writes := files, dirs, world, 0, [];
    }

    /** `path.read_bytes() if path.exists() else None`; a directory exists and cannot be read. */
    method Read(path: Path) returns (raised: bool, content: Option<Bytes>)
      modifies this
      ensures clock == old(clock) + 1 && writes == old(writes)
      ensures files == world.foreign(old(clock), old(files)) && dirs == world.foreignDirs(old(clock), old(dirs))
      ensures raised <==> path in dirs || world.fault(old(clock)) != NoFault
      ensures !raised ==> content == Lookup(files, path)
    {
      Elsewhere();
      raised := path in dirs || world.fault(clock) != NoFault;
      content := Lookup(files, path);
      clock := clock + 1;
    }

    /** What other processes do just before a call. */
    method Elsewhere()
      modifies this`files, this`dirs
      ensures files == world.foreign(clock, old(files)) && dirs == world.foreignDirs(clock, old(dirs))
    {
      files, dirs := world.foreign(clock, files), world.foreignDirs(clock, dirs);
    }

    /** `path.unlink()` for a file the patch deletes; there must be a file, and not a directory. */
    method Unlink(plan: PatchFilePlan) returns (raised: bool)
      modifies this
      ensures clock == old(clock) + 1 && dirs == world.foreignDirs(old(clock), old(dirs))
      ensures var now := world.foreign(old(clock), old(files));
              if plan.path !in now || plan.path in dirs || world.fault(old(clock)) == FailsBefore
              then raised && files == now && writes == old(writes)
              else (raised <==> world.fault(old(clock)) == FailsAfter)
                   && files == now - {plan.path} && writes == old(writes) + [Remove(plan)]
    {
      Elsewhere();
      var fault := world.fault(clock);
      clock := clock + 1;
      if plan.path !in files || plan.path in dirs || fault == FailsBefore {
        return true;
      }
      files := files - {plan.path};
      writes := writes + [Remove(plan)];
      raised := fault == FailsAfter;
    }

    /**
     * `mkdir` of the directories `path` lies in, then `mkstemp`, `write` and `fsync`: a temporary file with the
     * content, or whatever a failure leaves of it. A file in the place of a directory makes it fail with nothing done.
     */
    method WriteTemp(path: Path, content: Bytes) returns (raised: bool, name: Path)
      modifies this
      ensures clock == old(clock) + 1
      ensures var now, base := world.foreign(old(clock), old(files)), world.foreignDirs(old(clock), old(dirs));
              && name == world.tempName(old(clock), now.Keys + base + Parents(path))
              && (raised <==> FileAbove(now, path) || world.fault(old(clock)) != NoFault)
              && base <= dirs <= base + Parents(path)
              && (FileAbove(now, path) ==> files == now && dirs == base && writes == old(writes))
              && (!raised ==> dirs == base + Parents(path)
                              && files == now[name := content] && writes == old(writes) + [TempFile(name)])
              && (raised ==> (files == now && writes == old(writes))
                             || (files == now[name := world.debris(old(clock))]
                               && writes == old(writes) + [TempFile(name)]))
    {
      Elsewhere();
      name := world.tempName(clock, files.Keys + dirs + Parents(path));
      var fault := world.fault(clock);
      clock := clock + 1;
      if FileAbove(files, path) {
        return true, name;
      }
      if fault == FailsBefore {
        dirs := dirs + set a | a in Parents(path) && |a| <= world.depth(clock - 1);
        return true, name;
      }
      dirs := dirs + Parents(path);
      files := files[name := if fault == FailsAfter then world.debris(clock - 1) else content];
      writes := writes + [TempFile(name)];
      raised := fault == FailsAfter;
    }

    /** `os.replace(temp, path)`; a directory is not replaced. */
    method Replace(temp: Path, plan: PatchFilePlan) returns (raised: bool)
      modifies this
      ensures clock == old(clock) + 1 && dirs == world.foreignDirs(old(clock), old(dirs))
      ensures var now := world.foreign(old(clock), old(files));
              if temp !in now || plan.path in dirs || world.fault(old(clock)) == FailsBefore
              then raised && files == now && writes == old(writes)
              else (raised <==> world.fault(old(clock)) == FailsAfter)
                   && files == (now - {temp})[plan.path := now[temp]] && writes == old(writes) + [Install(plan)]
    {
      Elsewhere();
      var fault := world.fault(clock);
      clock := clock + 1;
      if temp !in files || plan.path in dirs || fault == FailsBefore {
        return true;
      }
      files := (files - {temp})[plan.path := files[temp]];
      writes := writes + [Install(plan)];
      raised := fault == FailsAfter;
    }

    /** The old image of a file cannot be put back: its place is a directory, or the directory it goes in is missing. */
    predicate NoPlace(plan: PatchFilePlan)
      reads this
    {
      plan.path in dirs || (plan.preImage != None && !(Parents(plan.path) <= dirs))
    }

    /** Puts the old image of a file back: `write_bytes`, or `unlink` when there was no file and one is there now. */
    method PutBack(plan: PatchFilePlan, ghost seen: Option<Bytes>) returns (raised: bool)
      modifies this
      ensures clock == old(clock) + 1 && dirs == world.foreignDirs(old(clock), old(dirs))
      ensures raised <==> NoPlace(plan) || world.fault(old(clock)) != NoFault
      ensures var now := world.foreign(old(clock), old(files));
              && (NoPlace(plan) || world.fault(old(clock)) == FailsBefore ==> files == now && writes == old(writes))
              && (!NoPlace(plan) && world.fault(old(clock)) != FailsBefore ==>
                    writes == old(writes) + [Restore(plan, old(clock), seen, Lookup(now, plan.path))])
              && (!NoPlace(plan) && world.fault(old(clock)) == FailsAfter ==>
                    files == Put(now, plan.path, if plan.preImage == None
                      then None else Some(world.debris(old(clock)))))
              && (!raised ==> files == Put(now, plan.path, plan.preImage))
    {
      Elsewhere();
      var fault := world.fault(clock);
      clock := clock + 1;
      if NoPlace(plan) || fault == FailsBefore {
        return true;
      }
      writes := writes + [Restore(plan, clock - 1, seen, Lookup(files, plan.path))];
      if plan.preImage == None {
        if plan.path in files {
          files := files - {plan.path};
        }
      } else {
        files := files[plan.path := if fault == FailsAfter then world.debris(clock - 1) else plan.preImage.value];
      }
      raised := fault == FailsAfter;
    }
  }
}
