/** The commit table of one destination and the queries that grant delete authority. */
module Ledger {
  import opened Basics
  import opened Paths
  import opened Fsx

  type RunId = string

  datatype Op = Move | Copy | Delete | Rename | Tag | Write

  datatype Status = Pending | Done | Failed | Reverted

  /** One row of `commits`; its id is its position in the table. */
  datatype Row = Row(
    run: RunId, op: Op, src: Option<Path>, dst: Option<Path>,
    srcSha: Option<Digest>, dstSha: Option<Digest>, bytes: int, status: Status, requestedBy: string)

  type Rows = seq<Row>

  // ---- the queries, newest row first ----

  /** A row that proves some path held these bytes. */
  predicate IsProof(row: Row, sha: Digest) {
    row.op in {Copy, Move} && row.dstSha == Some(sha) && row.status == Done && row.dst.Some?
  }

  /** A proof row with no later one for this hash. */
  ghost predicate IsNewestProof(rows: Rows, sha: Digest, i: nat) {
    i < |rows| && IsProof(rows[i], sha) && forall k :: i < k < |rows| ==> !IsProof(rows[k], sha)
  }

  /** `find_copy`: where the newest proof row says these bytes are. */
  function FindCopy(rows: Rows, sha: Digest): (r: Option<Path>)
    ensures r.Some? ==> exists i: nat :: IsNewestProof(rows, sha, i) && rows[i].dst == r
    ensures r.None? ==> forall i :: 0 <= i < |rows| ==> !IsProof(rows[i], sha)
  {
    if rows == [] then None
    else
      var last := rows[|rows| - 1];
      if IsProof(last, sha) then last.dst else FindCopy(rows[..|rows| - 1], sha)
  }

  predicate IsPendingDelete(row: Row, run: RunId, path: Path) {
    row.run == run && row.op == Delete && row.src == Some(path) && row.status == Pending
  }

  /** The id of the newest pending delete row naming this path in this run. */
  function PendingDelete(rows: Rows, run: RunId, path: Path): (r: Option<nat>)
    ensures r.Some? ==> r.value < |rows| && IsPendingDelete(rows[r.value], run, path)
    ensures r.Some? ==> forall i :: r.value < i < |rows| ==> !IsPendingDelete(rows[i], run, path)
    ensures r.None? ==> forall i :: 0 <= i < |rows| ==> !IsPendingDelete(rows[i], run, path)
  {
    if rows == [] then None
    else if IsPendingDelete(rows[|rows| - 1], run, path) then Some(|rows| - 1)
    else PendingDelete(rows[..|rows| - 1], run, path)
  }

  predicate SurvivesElsewhere(rows: Rows, sha: Digest, path: Path) {
    exists i :: 0 <= i < |rows| && IsProof(rows[i], sha) && rows[i].dst != Some(path)
  }

  /** `authorised_delete`: the delete row that fsx.remove may act on. */
  function AuthorisedDelete(rows: Rows, apply: bool, run: RunId, path: Path): (r: Option<nat>)
    ensures r.Some? ==> apply && r.value < |rows| && IsPendingDelete(rows[r.value], run, path)
    ensures r.Some? ==> rows[r.value].srcSha.Some? && SurvivesElsewhere(rows, rows[r.value].srcSha.value, path)
  {
    match PendingDelete(rows, run, path)
    case None => None
    case Some(id) =>
      if apply && rows[id].srcSha.Some? && SurvivesElsewhere(rows, rows[id].srcSha.value, path)
      then Some(id) else None
  }

  /** `completed_paths`: the destinations a run already finished. */
  function CompletedPaths(rows: Rows, run: RunId): set<Path> {
    set i | 0 <= i < |rows| && rows[i].run == run && rows[i].status == Done && rows[i].dst.Some?
      :: rows[i].dst.value
  }

  /** `unclaimed_deletes`: delete rows without a recorded copy elsewhere. */
  ghost predicate Unclaimed(rows: Rows, run: RunId, id: nat)
    requires id < |rows|
  {
    && rows[id].run == run && rows[id].op == Delete
    && (rows[id].srcSha.Some? && rows[id].src.Some? ==>
          !SurvivesElsewhere(rows, rows[id].srcSha.value, rows[id].src.value))
  }

  // ---- the rows the engine writes ----

  function CopyRow(run: RunId, dst: Path, sha: Digest, bytes: int, requestedBy: string): Row {
    Row(run, Copy, None, Some(dst), None, Some(sha), bytes, Done, requestedBy)
  }

  function DeleteRow(run: RunId, src: Path, sha: Digest, bytes: int, requestedBy: string): Row {
    Row(run, Delete, Some(src), None, Some(sha), None, bytes, Pending, requestedBy)
  }

  class Ledger {
    var rows: Rows
    var runs: map<RunId, string>

    constructor ()
      ensures rows == [] && runs == map[]
    {
      rows, runs := [], map[];
    }

    /** `start_run`: registering a run again leaves its first registration. */
    method StartRun(run: RunId, medium: string)
      modifies this`runs
      ensures runs == if run in old(runs) then old(runs) else old(runs)[run := medium]
    {
      if run !in runs { runs := runs[run := medium]; }
    }

    /** `record`. */
    method Record(row: Row) returns (id: nat)
      modifies this`rows
      ensures rows == old(rows) + [row] && id == |old(rows)|
    {
      id := |rows|;
      rows := rows + [row];
    }

    /** `verify_copy`. */
    method VerifyCopy(run: RunId, dst: Path, sha: Digest, bytes: int, requestedBy: string)
      modifies this`rows
      ensures rows == old(rows) + [CopyRow(run, dst, sha, bytes, requestedBy)]
    {
      var _ := Record(CopyRow(run, dst, sha, bytes, requestedBy));
    }

    /** `request_delete`, with the hash its callers always supply. */
    method RequestDelete(run: RunId, path: Path, sha: Digest, bytes: int, size: nat, requestedBy: string)
      modifies this`rows
      ensures rows == old(rows) + [DeleteRow(run, path, sha, if bytes != 0 then bytes else size, requestedBy)]
    {
      var _ := Record(DeleteRow(run, path, sha, if bytes != 0 then bytes else size, requestedBy));
    }

    /** `mark_delete_done`. */
    method MarkDeleteDone(id: nat)
      requires id < |rows|
      modifies this`rows
      ensures rows == old(rows)[id := old(rows)[id].(status := Done)]
    {
      rows := rows[id := rows[id].(status := Done)];
    }

    /** `claim_pending`: only the first of two claims on a row succeeds. */
    method ClaimPending(id: nat) returns (claimed: bool)
      requires id < |rows|
      modifies this`rows
      ensures claimed <==> old(rows)[id].status == Pending
      ensures rows == if claimed then old(rows)[id := old(rows)[id].(status := Done)] else old(rows)
      ensures rows[id].status != Pending
    {
      claimed := rows[id].status == Pending;
      if claimed { rows := rows[id := rows[id].(status := Done)]; }
    }
  }
}
