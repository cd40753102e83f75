/** The file map, and the staged, verified, atomic copy that is the only way bytes are written. */
module Fsx {
  import opened Basics
  import opened Paths

  type Bytes = seq<bv8>
  type Files = map<Path, Bytes>

  /** A digest that does not collide: it determines the bytes it was computed from. */
  datatype Digest = Digest(of: Bytes)

  function Sha256(bytes: Bytes): Digest { Digest(bytes) }

  const TMP_PREFIX := ".mediatool-"

  predicate IsStaging(leaf: Component) { TMP_PREFIX <= leaf }

  /** Where copy_file builds the copy: a dot-named neighbour of the destination. */
  function Staging(dst: Path): Path
    requires dst != []
  {
    Parent(dst) + [TMP_PREFIX + Leaf(dst)]
  }

  datatype Phase = Directories | Writing | Syncing | HashingCopy | HashingSource | Replacing | Measuring

  /** How one call ends: by itself, by an exception in a phase, or by a power cut in a phase. */
  datatype Fate = Completes | Raises(at: Phase) | PowerCut(at: Phase)

  /** What the machine does during one call: the bytes that reach the staging file, what an
      unfinished staging file holds, whether cleanup works, and whether a rename that a power
      cut interrupts survives it. */
  datatype Io = Io(fate: Fate, landed: Bytes, torn: Bytes, reflinked: bool, cleans: bool, renamed: bool)

  datatype Receipt = Receipt(bytes: nat, sha256: Digest, reflinked: bool)

  datatype Outcome = Copied(receipt: Receipt) | Raised | Dead

  /** The digest the copy has to match, when verifying. */
  function Expected(files: Files, src: Path, digest: Option<Digest>): Option<Digest> {
    match digest
    case Some(d) => Some(d)
    case None => if src in files then Some(Sha256(files[src])) else None
  }

  /** What a destination path may hold once a verifying copy has stopped for any reason. */
  ghost predicate OldOrSource(before: Files, after: Files, src: Path, dst: Path, digest: Option<Digest>) {
    || ((dst in after <==> dst in before) && (dst in before ==> after[dst] == before[dst]))
    || (dst in after && Expected(before, src, digest) == Some(Sha256(after[dst])))
  }

  class Disk {
    var files: Files

    constructor (files: Files)
      ensures this.files == files
    {
      this.files := files;
    }

    /** os.remove of the staging file, which the `finally` clause tries whenever one exists. */
    method Clean(staging: Path, cleans: bool)
      modifies this
      ensures files == if cleans then old(files) - {staging} else old(files)
    {
      if staging in files {
        if cleans { files := files - {staging}; }
      }
    }

    /** The part of `copy_file` before os.replace: build, sync, hash and verify the staging file. */
    method Stage(src: Path, dst: Path, verify: bool, digest: Option<Digest>, io: Io) returns (r: Outcome)
      requires dst != []
      modifies this
      ensures files - {Staging(dst)} == old(files) - {Staging(dst)}
      ensures r.Copied? <==> Builds(old(files), src, dst, verify, digest, io)
      ensures r.Copied? ==> files == old(files)[Staging(dst) := Landed(old(files), src, io)]
      ensures r.Copied? ==> r.receipt == Receipt(|files[Staging(dst)]|, Sha256(files[Staging(dst)]), io.reflinked)
      ensures r.Raised? && io.cleans ==>
        files == if io.fate == Raises(Directories) then old(files) else old(files) - {Staging(dst)}
      ensures r.Dead? <==> Dies(old(files), src, dst, verify, digest, io) && io.fate.at !in {Replacing, Measuring}
      ensures r.Dead? ==> files == AfterCut(old(files), src, dst, io)
    {
      var staging := Staging(dst);
      if io.fate == PowerCut(Directories) { return Dead; }
      if io.fate == Raises(Directories) { return Raised; }
      if src !in files {
        Clean(staging, io.cleans);
        return Raised;
      }
      if src == staging || io.fate == Raises(Writing) {
        // a source that is its own staging file may already be cut when the copy refuses it
        files := files[staging := io.torn];
        Clean(staging, io.cleans);
        return Raised;
      }
      if io.fate == PowerCut(Writing) || io.fate == PowerCut(Syncing) {
        files := files[staging := io.torn];
        return Dead;
      }
      files := files[staging := Landed(files, src, io)];
      if io.fate == Raises(Syncing) || io.fate == Raises(HashingCopy) {
        Clean(staging, io.cleans);
        return Raised;
      }
      if io.fate == PowerCut(HashingCopy) { return Dead; }
      if verify {
        if digest.None? && io.fate == PowerCut(HashingSource) { return Dead; }
        if digest.None? && io.fate == Raises(HashingSource) {
          Clean(staging, io.cleans);
          return Raised;
        }
        var source := if digest.Some? then digest.value else Sha256(files[src]);
        if source != Sha256(files[staging]) {
          Clean(staging, io.cleans);
          return Raised;
        }
      }
      return Copied(Receipt(|files[staging]|, Sha256(files[staging]), io.reflinked));
    }

    /** The rest of `copy_file`: os.replace, and the syncing and measuring after it. */
    method Replace(dst: Path, receipt: Receipt, io: Io) returns (r: Outcome)
      requires dst != [] && Staging(dst) in files
      modifies this
      ensures r == match io.fate
        case Completes => Copied(receipt)
        case Raises(at) => if at == Replacing || at == Measuring then Raised else Copied(receipt)
        case PowerCut(at) => if at == Replacing || at == Measuring then Dead else Copied(receipt)
      ensures files ==
        if io.fate == Raises(Replacing) then (if io.cleans then old(files) - {Staging(dst)} else old(files))
        else if r.Dead? && !io.renamed then old(files)
        else (old(files) - {Staging(dst)})[dst := old(files)[Staging(dst)]]
    {
      var staging := Staging(dst);
      if io.fate == Raises(Replacing) {
        Clean(staging, io.cleans);
        return Raised;
      }
      if io.fate == PowerCut(Replacing) || io.fate == PowerCut(Measuring) {
        // the directory was never synced: the rename may or may not outlive the cut
        if io.renamed { files := (files - {staging})[dst := files[staging]]; }
        return Dead;
      }
      files := (files - {staging})[dst := files[staging]];
      if io.fate == Raises(Measuring) { return Raised; }
      return Copied(receipt);
    }

    /** `copy_file`. */
    method CopyFile(src: Path, dst: Path, verify: bool, digest: Option<Digest>, io: Io) returns (r: Outcome)
      requires dst != []
      modifies this
      // nothing but the destination and its staging neighbour is ever touched
      ensures files - {dst, Staging(dst)} == old(files) - {dst, Staging(dst)}
      // at every point where the call can stop, the destination is old or complete
      ensures verify ==> OldOrSource(old(files), files, src, dst, digest)
      // it replaces the destination, by exactly the staged bytes, when it gets that far ...
      ensures !r.Dead? && Lands(old(files), src, dst, verify, digest, io) ==>
        files == (old(files) - {Staging(dst)})[dst := Landed(old(files), src, io)]
      // ... and it succeeds exactly when nothing it does fails and, when verifying, the staged bytes match
      ensures r.Copied? <==>
        && src in old(files) && src != Staging(dst)
        && (io.fate == Completes || (io.fate.at == HashingSource && !(verify && digest == None)))
        && (verify ==> Sha256(if io.reflinked then old(files)[src] else io.landed) ==
                       (if digest.Some? then digest.value else Sha256(old(files)[src])))
      ensures r.Copied? ==> r.receipt == Receipt(|files[dst]|, Sha256(files[dst]), io.reflinked)
      ensures r.Copied? ==> files == (old(files) - {Staging(dst)})[dst :=
        if io.reflinked then old(files)[src] else io.landed]
      // ... and an exception before that leaves it alone, with no staging file if cleanup works
      ensures r.Raised? && !Lands(old(files), src, dst, verify, digest, io) && io.cleans ==>
        files == if io.fate == Raises(Directories) then old(files) else old(files) - {Staging(dst)}
      // the staging name is overwritten unasked: when what a leftover held there is lost
      ensures !r.Dead? && Lands(old(files), src, dst, verify, digest, io) && Staging(dst) in old(files) ==>
        (HeldByNone(files, old(files)[Staging(dst)]) <==>
          Landed(old(files), src, io) != old(files)[Staging(dst)] && HeldOnlyBy(old(files), Staging(dst), dst))
      // a power cut leaves exactly what its phase had put on the disk
      ensures r.Dead? <==> Dies(old(files), src, dst, verify, digest, io)
      ensures r.Dead? ==> files == AfterCut(old(files), src, dst, io)
    {
      StagingDiffers(dst);
      LandsIff(files, src, dst, verify, digest, io);
      r := Stage(src, dst, verify, digest, io);
      if !r.Copied? {
        SameOutside(old(files), files, dst, Staging(dst));
      } else {
        StagedOutside(old(files), dst, Landed(old(files), src, io));
        if Staging(dst) in old(files) { LeftoverIsLost(old(files), src, dst, io); }
        r := Replace(dst, r.receipt, io);
      }
    }
  }

  lemma {:induction false} SameOutside(before: Files, after: Files, dst: Path, staging: Path)
    requires before - {staging} == after - {staging} && dst != staging
    ensures before - {dst, staging} == after - {dst, staging}
    ensures dst in before <==> dst in after
    ensures dst in before ==> before[dst] == after[dst]
  {
    assert before - {dst, staging} == (before - {staging}) - {dst};
    assert after - {dst, staging} == (after - {staging}) - {dst};
    assert dst in before <==> dst in before - {staging};
    assert dst in after <==> dst in after - {staging};
  }

  /** With a staging file built, then dropped, or renamed. */
  lemma {:induction false} StagedOutside(before: Files, dst: Path, bytes: Bytes)
    requires dst != [] && Staging(dst) != dst
    ensures var staging := Staging(dst);
      var staged := before[staging := bytes];
      && staged[staging] == bytes && staged - {staging} == before - {staging}
      && staged - {dst, staging} == before - {dst, staging}
      && (before - {staging}) - {dst, staging} == before - {dst, staging}
      && (before - {staging})[dst := bytes] - {dst, staging} == before - {dst, staging}
  {
  }

  lemma {:induction false} StagingDiffers(dst: Path)
    requires dst != []
    ensures Staging(dst) != dst
    ensures IsStaging(Leaf(Staging(dst)))
  {
    assert |Leaf(Staging(dst))| > |Leaf(dst)|;
  }

  /** The bytes the staging file ends up with: a clone is the source, a write what reached the disk. */
  function Landed(files: Files, src: Path, io: Io): Bytes
    requires src in files
  {
    if io.reflinked then files[src] else io.landed
  }

  /** A phase is passed unless the call stops in it; hashing the source happens only to verify. */
  predicate Passes(at: Phase, verify: bool, digest: Option<Digest>, io: Io) {
    io.fate.Completes? || io.fate.at != at || (at == HashingSource && (!verify || digest.Some?))
  }

  /** The staging file gets built and verified. */
  predicate Builds(files: Files, src: Path, dst: Path, verify: bool, digest: Option<Digest>, io: Io)
    requires dst != []
  {
    && src in files && src != Staging(dst)
    && Passes(Directories, verify, digest, io) && Passes(Writing, verify, digest, io)
    && Passes(Syncing, verify, digest, io) && Passes(HashingCopy, verify, digest, io)
    && Passes(HashingSource, verify, digest, io)
    && (verify ==> Expected(files, src, digest) == Some(Sha256(Landed(files, src, io))))
  }

  /** The call gets past os.replace, power cuts aside. */
  predicate Lands(files: Files, src: Path, dst: Path, verify: bool, digest: Option<Digest>, io: Io)
    requires dst != []
  {
    Builds(files, src, dst, verify, digest, io) && Passes(Replacing, verify, digest, io)
  }

  predicate Succeeds(files: Files, src: Path, dst: Path, verify: bool, digest: Option<Digest>, io: Io)
    requires dst != []
  {
    Lands(files, src, dst, verify, digest, io) && Passes(Measuring, verify, digest, io)
  }

  /** What it takes to replace the destination: a source that is not the staging name, no failure up to the rename,
      and, when verifying, staged bytes that match: the source's for a reflink, what reached the disk for a write. */
  lemma {:induction false} LandsIff(files: Files, src: Path, dst: Path, verify: bool, digest: Option<Digest>, io: Io)
    requires dst != []
    ensures Lands(files, src, dst, verify, digest, io) <==>
      && src in files && src != Staging(dst)
      && (io.fate == Completes || io.fate.at == Measuring ||
          (io.fate.at == HashingSource && !(verify && digest == None)))
      && (verify ==>
            (if digest.Some? then digest.value else Sha256(files[src])) ==
              Sha256(if io.reflinked then files[src] else io.landed))
    ensures Succeeds(files, src, dst, verify, digest, io) <==>
      Lands(files, src, dst, verify, digest, io) && (io.fate == Completes || io.fate.at != Measuring)
  {
    match io.fate
    case Completes =>
    case Raises(at) => assert Passes(at, verify, digest, io) <==> at == HashingSource && !(verify && digest == None);
    case PowerCut(at) => assert Passes(at, verify, digest, io) <==> at == HashingSource && !(verify && digest == None);
  }

  /** A power cut stops the call, before or after the rename. */
  predicate Dies(files: Files, src: Path, dst: Path, verify: bool, digest: Option<Digest>, io: Io)
    requires dst != []
  {
    io.fate.PowerCut? &&
    match io.fate.at
    case Directories => true
    case Writing => src in files && src != Staging(dst)
    case Syncing => src in files && src != Staging(dst)
    case HashingCopy => src in files && src != Staging(dst)
    case HashingSource => src in files && src != Staging(dst) && verify && digest.None?
    case _ => Builds(files, src, dst, verify, digest, io)
  }

  /** A power cut stops the call in the phase it falls into, if the call comes to that phase: the first one always, the
      others only with a source that is there and is not the staging name, the hashing of the source only where it is
      done, and the last two only with verified bytes. */
  lemma {:induction false} DiesIff(files: Files, src: Path, dst: Path, verify: bool, digest: Option<Digest>, io: Io)
    requires dst != []
    ensures Dies(files, src, dst, verify, digest, io) <==>
      && io.fate.PowerCut?
      && (io.fate.at == Directories ||
          (&& src in files && src != Staging(dst)
           && (io.fate.at == HashingSource ==> verify && digest == None)
           && (io.fate.at in {Replacing, Measuring} && verify ==>
                 (if digest.Some? then digest.value else Sha256(files[src])) ==
                   Sha256(if io.reflinked then files[src] else io.landed))))
  {
    if io.fate.PowerCut? {
      match io.fate.at
      case Directories => case Writing => case Syncing => case HashingCopy => case HashingSource =>
      case Replacing => case Measuring =>
    }
  }

  /** The disk a power cut leaves: a torn or a whole staging file, or a rename that did or did not outlive it. */
  function AfterCut(files: Files, src: Path, dst: Path, io: Io): Files
    requires dst != [] && io.fate.PowerCut?
  {
    if io.fate.at == Directories || src !in files then files
    else if io.fate.at == Writing || io.fate.at == Syncing then files[Staging(dst) := io.torn]
    else if (io.fate.at == Replacing || io.fate.at == Measuring) && io.renamed then
      (files - {Staging(dst)})[dst := Landed(files, src, io)]
    else files[Staging(dst) := Landed(files, src, io)]
  }

  /** A cut after the write leaves the staged bytes, or the destination replaced by them; an earlier one at most a torn
      staging file. */
  lemma {:induction false} CutLeaves(files: Files, src: Path, dst: Path, verify: bool, io: Io)
    requires dst != [] && Dies(files, src, dst, verify, None, io)
    ensures var after := AfterCut(files, src, dst, io);
      var staged := if io.reflinked && src in files then files[src] else io.landed;
      match io.fate.at
      case Directories => after == files
      case Writing => after == files[Staging(dst) := io.torn]
      case Syncing => after == files[Staging(dst) := io.torn]
      case HashingCopy => after == files[Staging(dst) := staged]
      case HashingSource => after == files[Staging(dst) := staged]
      case _ => after == if io.renamed then (files - {Staging(dst)})[dst := staged] else files[Staging(dst) := staged]
  {
  }

  // ---- what callers conclude ----

  ghost predicate HeldByNone(files: Files, bytes: Bytes) { bytes !in files.Values }

  /** No third file holds what the first one holds. */
  ghost predicate HeldOnlyBy(files: Files, p: Path, q: Path)
    requires p in files
  {
    forall r :: r in files && files[r] == files[p] ==> r == p || r == q
  }

  /** A copy that lands over a leftover staging file leaves the leftover's content nowhere exactly when it brings
      another one and no file but these two names held it. */
  lemma {:induction false} LeftoverIsLost(files: Files, src: Path, dst: Path, io: Io)
    requires dst != [] && Staging(dst) in files && src in files
    ensures var after := (files - {Staging(dst)})[dst := Landed(files, src, io)];
      HeldByNone(after, files[Staging(dst)]) <==>
        Landed(files, src, io) != files[Staging(dst)] && HeldOnlyBy(files, Staging(dst), dst)
  {
    var after, bytes := (files - {Staging(dst)})[dst := Landed(files, src, io)], files[Staging(dst)];
    if bytes in after.Values {
      var r :| r in after && after[r] == bytes;
      if r != dst { assert r in files && files[r] == bytes && r != Staging(dst); }
    }
    if Landed(files, src, io) == bytes { assert dst in after && after[dst] == bytes; }
    if r :| r in files && files[r] == bytes && r != Staging(dst) && r != dst { assert r in after && after[r] == bytes; }
  }
}
