/** Materialising commits into the working tree: overwriting files from a
    commit's blobs, and reverting the whole tree to a commit (the shared step
    of branch checkout, reset and fast-forward). */
module Checkout {
  import opened Objects
  import opened Files
  import opened Branches
  import opened Tracking
  import opened Repo

  /** The working tree after each blob of `ids`, in order, is written to the
      file its id names. */
  function WriteAll(work: map<string, string>, blobs: map<string, string>, ids: seq<string>): map<string, string>
    requires BlobsStored(blobs, ids)
  {
    if |ids| == 0 then work
    else
      var last := ids[|ids| - 1];
      WriteAll(work, blobs, ids[..|ids| - 1])[BlobName(last) := blobs[last]]
  }

  /** The files a commit snapshot holds: each tracked name with the content
      of its blob. */
  function Snapshot(blobs: map<string, string>, ids: seq<string>): (s: map<string, string>)
    requires BlobsStored(blobs, ids)
    ensures s.Keys == Names(ids)
  {
    var m := NameMap(ids);
    map n | n in m :: blobs[m[n]]
  }

  /** Writing a commit's blobs in order leaves every tracked file holding its
      snapshot content and every other file as it was. */
  lemma {:induction false} WriteAllOverlays(work: map<string, string>, blobs: map<string, string>, ids: seq<string>)
    requires BlobsStored(blobs, ids)
    ensures WriteAll(work, blobs, ids) == work + Snapshot(blobs, ids)
  {
    if |ids| > 0 {
      var init := ids[..|ids| - 1];
      var last := ids[|ids| - 1];
      SnapshotSnoc(blobs, ids);
      WriteAllOverlays(work, blobs, init);
      var s0 := Snapshot(blobs, init);
      calc {
        WriteAll(work, blobs, ids);
        WriteAll(work, blobs, init)[BlobName(last) := blobs[last]];
        (work + s0)[BlobName(last) := blobs[last]];
        { MapOverlayUpdate(work, s0, BlobName(last), blobs[last]); }
        work + s0[BlobName(last) := blobs[last]];
      }
    }
  }

  /** Overlaying a map and then updating one key is overlaying the updated map. */
  lemma MapOverlayUpdate<K, V>(a: map<K, V>, b: map<K, V>, k: K, v: V)
    ensures (a + b)[k := v] == a + b[k := v]
  {
  }

  /** The snapshot of a list is its prefix's snapshot with the last blob
      written over its name. */
  lemma SnapshotSnoc(blobs: map<string, string>, ids: seq<string>)
    requires BlobsStored(blobs, ids) && |ids| > 0
    ensures BlobsStored(blobs, ids[..|ids| - 1])
    ensures Snapshot(blobs, ids) ==
      Snapshot(blobs, ids[..|ids| - 1])[BlobName(ids[|ids| - 1]) := blobs[ids[|ids| - 1]]]
  {
    var init := ids[..|ids| - 1];
    var last := ids[|ids| - 1];
    assert forall id :: id in init ==> id in ids;
    var m := NameMap(ids);
    var m0 := NameMap(init);
    assert m == m0[BlobName(last) := last];
    var s := Snapshot(blobs, ids);
    var s0 := Snapshot(blobs, init);
    assert s.Keys == s0.Keys + {BlobName(last)};
    forall n | n in s
      ensures s[n] == s0[BlobName(last) := blobs[last]][n]
    {
      assert s[n] == blobs[m[n]];
    }
  }

  /** The working tree with the files tracked by the head but not by the
      target deleted. */
  function Pruned(work: map<string, string>, headIds: seq<string>, targetIds: seq<string>): (w: map<string, string>)
    ensures w.Keys <= work.Keys
  {
    map n | n in work && !(n in Names(headIds) && n !in Names(targetIds)) :: work[n]
  }

  /** The working tree a successful revert to `targetIds` produces. */
  function Reverted(work: map<string, string>, blobs: map<string, string>, headIds: seq<string>, targetIds: seq<string>): map<string, string>
    requires BlobsStored(blobs, targetIds)
  {
    Pruned(work, headIds, targetIds) + Snapshot(blobs, targetIds)
  }

  /** After a revert a file holds the target's version when the target tracks
      it, is gone when only the head tracked it, and is untouched otherwise. */
  lemma RevertedFiles(work: map<string, string>, blobs: map<string, string>,
                      headIds: seq<string>, targetIds: seq<string>, n: string)
    requires BlobsStored(blobs, targetIds)
    ensures n in Names(targetIds) ==>
      n in Reverted(work, blobs, headIds, targetIds) &&
      Reverted(work, blobs, headIds, targetIds)[n] == blobs[NameMap(targetIds)[n]]
    ensures n in Names(headIds) && n !in Names(targetIds) ==> n !in Reverted(work, blobs, headIds, targetIds)
    ensures n !in Names(headIds) && n !in Names(targetIds) ==>
      (n in Reverted(work, blobs, headIds, targetIds) <==> n in work) &&
      (n in work ==> Reverted(work, blobs, headIds, targetIds)[n] == work[n])
  {
  }

  /** What overwriting one tracked file leaves: the first blob of the
      commit carrying the name is written over the file when its object is
      stored; a missing object stops with the tree as it was. */
  ghost predicate FileCheckedOut(work: map<string, string>, work': map<string, string>,
                                 blobs: map<string, string>, ids: seq<string>, fileName: string, status: Status)
  {
    exists k :: 0 <= k < |ids| && BlobName(ids[k]) == fileName &&
      (forall j :: 0 <= j < k ==> BlobName(ids[j]) != fileName) &&
      (ids[k] in blobs ==> status == Done && work' == work[fileName := blobs[ids[k]]]) &&
      (ids[k] !in blobs ==> status.Crashed? && work' == work)
  }

  /** checkOutFilesOverwrite: with an empty file name every blob of the
      commit is written to the working tree in array order; otherwise only
      the first blob carrying that name is. Reading a blob whose object is
      not stored throws, leaving the files written so far. */
  method CheckOutFilesOverwrite(r: Repository, fileName: string, ids: seq<string>) returns (status: Status)
    modifies r`work
    ensures fileName == "" && BlobsStored(r.blobs, ids) ==>
      status == Done && r.work == old(r.work) + Snapshot(r.blobs, ids)
    ensures fileName == "" && !BlobsStored(r.blobs, ids) ==>
      status.Crashed? &&
      exists k :: 0 <= k < |ids| && ids[k] !in r.blobs && BlobsStored(r.blobs, ids[..k]) &&
        r.work == WriteAll(old(r.work), r.blobs, ids[..k])
    ensures fileName != "" && fileName !in Names(ids) ==>
      status == Done && r.work == old(r.work)
    ensures fileName != "" && fileName in Names(ids) ==>
      FileCheckedOut(old(r.work), r.work, r.blobs, ids, fileName, status)
  {
    var i := 0;
    while i < |ids|
      invariant 0 <= i <= |ids|
      invariant fileName != "" ==> r.work == old(r.work)
      invariant fileName != "" ==> forall j :: 0 <= j < i ==> BlobName(ids[j]) != fileName
      invariant fileName == "" ==> BlobsStored(r.blobs, ids[..i]) && r.work == WriteAll(old(r.work), r.blobs, ids[..i])
    {
      var id := ids[i];
      var name := BlobName(id);
      if |fileName| > 0 {
        if name == fileName {
          if id !in r.blobs {
            return Crashed("blob object " + id + " is missing");
          }
          r.work := r.work[name := r.blobs[id]];
          return Done;
        }
      } else {
        if id !in r.blobs {
          return Crashed("blob object " + id + " is missing");
        }
        assert ids[..i + 1][..i] == ids[..i];
        r.work := r.work[name := r.blobs[id]];
      }
      i := i + 1;
    }
    if fileName == "" {
      assert ids[..|ids|] == ids;
      WriteAllOverlays(old(r.work), r.blobs, ids);
    }
    return Done;
  }

  /** Some untracked working file is in the way of the target snapshot. */
  predicate Blocked(work: map<string, string>, addIds: seq<string>, headIds: seq<string>, targetIds: seq<string>) {
    exists n :: n in work && InTheWay(work, addIds, headIds, Some(NameMap(targetIds)), n)
  }

  /** The deletion pass of revertFileToCommit: every listed file the head
      tracks and the target does not is deleted. */
  method DeleteUntrackedByTarget(r: Repository, headIds: seq<string>, targetIds: seq<string>)
    modifies r`work
    ensures r.work == Pruned(old(r.work), headIds, targetIds)
  {
    var headNames := Names(headIds);
    var targetNames := Names(targetIds);
    var listing := r.work.Keys;
    while listing != {}
      invariant listing <= old(r.work).Keys
      invariant r.work == map n | n in old(r.work) && (n in listing || !(n in headNames && n !in targetNames)) :: old(r.work)[n]
      decreases |listing|
    {
      var n :| n in listing;
      if n in headNames && n !in targetNames {
        r.work := r.work - {n};
      }
      listing := listing - {n};
    }
  }

  /** The part of revertFileToCommit after the guard: delete the files the
      head tracks and the target does not, write every file of the target,
      then delete both stage files. A missing blob object stops it before
      the stage files are touched. */
  method Restore(r: Repository, headIds: seq<string>, targetIds: seq<string>) returns (status: Status)
    requires r.Valid()
    modifies r`work, r`addExists, r`addStage, r`rmExists, r`rmStage
    ensures r.Valid()
    ensures r.branches == old(r.branches) && r.current == old(r.current) && r.commits == old(r.commits)
    ensures BlobsStored(r.blobs, targetIds) <==> status == Done
    ensures status == Done ==>
      r.work == Reverted(old(r.work), r.blobs, headIds, targetIds) &&
      !r.addExists && r.addStage == [] && !r.rmExists && r.rmStage == []
    ensures status != Done ==>
      status.Crashed? &&
      r.addExists == old(r.addExists) && r.addStage == old(r.addStage) &&
      r.rmExists == old(r.rmExists) && r.rmStage == old(r.rmStage)
  {
    DeleteUntrackedByTarget(r, headIds, targetIds);
    status := CheckOutFilesOverwrite(r, "", targetIds);
    if status.Crashed? {
      return;
    }
    if r.addExists {
      r.addExists, r.addStage := false, [];
    }
    if r.rmExists {
      r.rmExists, r.rmStage := false, [];
    }
  }

  /** revertFileToCommit: refuse when an untracked file is in the way of
      the target; otherwise restore the target's snapshot and delete both
      stage files. */
  method RevertFileToCommit(r: Repository, target: Commit) returns (status: Status)
    requires r.Valid()
    modifies r`work, r`addExists, r`addStage, r`rmExists, r`rmStage
    ensures r.Valid()
    ensures r.branches == old(r.branches) && r.current == old(r.current) && r.commits == old(r.commits)
    ensures var headIds := old(r.commits[r.HeadId()].blobIds);
      if Blocked(old(r.work), old(r.addStage), headIds, target.blobIds) then
        status == Failed(UNTRACKED_IN_THE_WAY) && unchanged(r)
      else if BlobsStored(r.blobs, target.blobIds) then
        status == Done &&
        r.work == Reverted(old(r.work), r.blobs, headIds, target.blobIds) &&
        !r.addExists && !r.rmExists
      else
        status.Crashed?
  {
    var head := r.commits[r.HeadId()];
    var targetMap := GetBlobsNameMapId(target.blobIds);
    var blocked := HasUntrackedFiles(r.work, r.addStage, head.blobIds, Some(targetMap));
    if blocked {
      return Failed(UNTRACKED_IN_THE_WAY);
    }
    status := Restore(r, head.blobIds, target.blobIds);
  }
}
