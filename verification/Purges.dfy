/** Deleting: fsx.remove and the purge verb, the only code that takes a file away. */
module Purges {
  import opened Basics
  import opened Paths
  import opened Fsx
  import L = Ledger
  import opened Planning
  import opened Worlds
  import opened Engines

  class Purger {
    const disk: Disk
    const ledger: L.Ledger
    const dirs: RunDirs

    constructor (disk: Disk, ledger: L.Ledger, dirs: RunDirs)
      ensures this.disk == disk && this.ledger == ledger && this.dirs == dirs
    {
      this.disk, this.ledger, this.dirs := disk, ledger, dirs;
    }

    ghost function World(): Worlds.World
      reads disk, ledger, dirs
    {
      Worlds.World(disk.files, ledger.rows, dirs.stages, ledger.runs)
    }

    /** `fsx.remove`: refused unless authorised, and unless the bytes are the planned ones. */
    method Remove(run: L.RunId, path: Path) returns (removed: bool)
      modifies disk, ledger`rows
      ensures World() == RemoveOne(old(World()), run, path)
      ensures removed <==> Removable(old(disk.files), old(ledger.rows), run, path)
    {
      if path !in disk.files { return false; }
      var id := L.AuthorisedDelete(ledger.rows, true, run, path);
      if id.None? { return false; }
      var current := Sha256(disk.files[path]);
      if ledger.rows[id.value].srcSha != Some(current) { return false; }
      disk.files := disk.files - {path};
      ledger.MarkDeleteDone(id.value);
      return true;
    }

    /** `fsx.remove` cut short between the removal and the row that records it. */
    method RemoveOnly(run: L.RunId, path: Path) returns (removed: bool)
      modifies disk
      ensures World() == RemoveUnmarked(old(World()), run, path)
      ensures removed <==> Removable(old(disk.files), old(ledger.rows), run, path)
    {
      if path !in disk.files { return false; }
      var id := L.AuthorisedDelete(ledger.rows, true, run, path);
      if id.None? { return false; }
      var current := Sha256(disk.files[path]);
      if ledger.rows[id.value].srcSha != Some(current) { return false; }
      disk.files := disk.files - {path};
      return true;
    }

    /** The re-verification loop of the purge: which staged claims still hold. */
    method Reverify(run: L.RunId, staged: seq<Candidate>) returns (allowed: seq<Path>)
      ensures allowed == AllowedPaths(World(), run, staged)
    {
      allowed := [];
      for i := 0 to |staged|
        invariant allowed == AllowedPaths(World(), run, staged[..i])
      {
        assert staged[..i + 1][..i] == staged[..i];
        var k := staged[i];
        if k.path in disk.files {
          var sha := if k.sha.Some? then k.sha.value else Sha256(disk.files[k.path]);
          var survivor := L.FindCopy(ledger.rows, sha);
          if survivor.Some? && survivor.value in disk.files && Sha256(disk.files[survivor.value]) == sha {
            if L.AuthorisedDelete(ledger.rows, true, run, k.path).Some? {
              allowed := allowed + [k.path];
            }
          }
        }
      }
      assert staged[..|staged|] == staged;
    }

    /** The removal loop of the purge, over the first n allowed paths. */
    method RemoveFirst(run: L.RunId, allowed: seq<Path>, n: nat) returns (removed: nat)
      requires n <= |allowed|
      modifies disk, ledger`rows
      ensures World() == RemoveAll(old(World()), run, allowed[..n])
      ensures removed == |old(disk.files)| - |disk.files|
    {
      removed := 0;
      ghost var w := World();
      for i := 0 to n
        invariant World() == RemoveAll(w, run, allowed[..i])
        invariant removed == |w.files| - |disk.files|
      {
        assert allowed[..i + 1][..i] == allowed[..i];
        ghost var before := disk.files;
        var ok := Remove(run, allowed[i]);
        if ok {
          RemovalShrinks(before, allowed[i]);
          removed := removed + 1;
        }
      }
    }

    /** `cmd_purge`, which may end early, between two files or between a removal and its row. */
    method CmdPurge(p: PurgeCall) returns (removed: nat)
      modifies disk, ledger`rows
      ensures World() == Purge(old(World()), p)
      ensures removed == |old(disk.files)| - |disk.files|
    {
      removed := 0;
      if p.run !in ledger.runs || ledger.runs[p.run] != p.medium { return; }
      if p.run !in dirs.stages { return; }
      var allowed := Reverify(p.run, dirs.stages[p.run]);
      if !p.confirmed { return; }
      var n := Min(p.removals, |allowed|);
      removed := RemoveFirst(p.run, allowed, n);
      if p.halfRemoval && n < |allowed| {
        ghost var before := disk.files;
        var ok := RemoveOnly(p.run, allowed[n]);
        if ok {
          RemovalShrinks(before, allowed[n]);
          removed := removed + 1;
        }
      }
    }
  }

  lemma {:induction false} RemovalShrinks(files: Files, p: Path)
    requires p in files
    ensures |files - {p}| == |files| - 1
  {
    assert (files - {p}).Keys == files.Keys - {p};
    assert |files| == |files.Keys| && |files - {p}| == |(files - {p}).Keys|;
  }
}
