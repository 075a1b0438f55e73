/** The commands that move the working tree to a commit or look commits up:
    the three forms of checkout, reset and find. */
module CheckoutCommands {
  import opened Objects
  import opened Files
  import opened Branches
  import opened Tracking
  import opened Repo
  import opened Checkout

  const NO_SUCH_BRANCH: string := "No such branch exists"
  const ALREADY_CURRENT: string := "No need to checkout the current branch."
  const INCORRECT_OPERANDS: string := "Incorrect operands."
  /** The message of the four-operand form, spelled as the command spells it. */
  const INCORRECT_OPERANDS_AT: string := "Incorre ct operands."
  const NO_SUCH_FILE: string := "File does not exist in that commit."
  const NO_SUCH_COMMIT: string := "No commit with that id exists."
  const NO_SUCH_MESSAGE: string := "Found no commit with that message."

  /** The separator operand of the file forms of checkout. */
  const SEPARATOR: string := "--"

  /** Whether an operand names the stored UID `uid`: an operand of full
      length (type prefix and UID) names the UID after its prefix, anything
      shorter or longer is an abbreviation of it. */
  ghost predicate Abbreviates(arg: string, uid: string) {
    if |arg| == UID_LENGTH + 5 then uid == arg[5..] else arg <= uid
  }

  /** Whether an operand names some stored commit. */
  ghost predicate Resolvable(commits: map<string, Commit>, arg: string) {
    exists k :: k in commits && Abbreviates(arg, k)
  }

  /** The lookup reset and checkout-at start with: a full-length operand is
      taken as it is, anything else is resolved by recoverUID, and the id
      is refused when getCommit finds no commit under it. */
  method LookUpCommit(commits: map<string, Commit>, arg: string) returns (id: Option<string>)
    requires forall k :: k in commits ==> |k| == UID_LENGTH
    ensures id.Some? ==> Truncate(id.value) in commits && Abbreviates(arg, Truncate(id.value))
    ensures id.None? <==> !Resolvable(commits, arg)
  {
    var commitId := arg;
    if |arg| != UID_LENGTH + 5 {
      var recovered := RecoverUid(commits, arg);
      if recovered.None? {
        return None;
      }
      commitId := recovered.value;
      assert |commitId| == UID_LENGTH;
    }
    var commit := GetCommit(commits, commitId);
    if commit.None? {
      return None;
    }
    return Some(commitId);
  }

  /** checkout [branch]: refused for an unknown branch and for the current
      branch; otherwise the working tree is reverted to the branch's head
      and the branch becomes current. A blob object that cannot be read
      stops the command before the current-branch file is written. */
  method CheckOutBranch(r: Repository, branch: string) returns (status: Status)
    requires r.Valid()
    modifies r`work, r`addExists, r`addStage, r`rmExists, r`rmStage, r`current
    ensures r.Valid()
    ensures r.branches == old(r.branches) && r.commits == old(r.commits)
    ensures !Listed(r.branches, branch) ==> status == Failed(NO_SUCH_BRANCH) && unchanged(r)
    ensures Listed(r.branches, branch) && branch == old(r.current) ==>
      status == Failed(ALREADY_CURRENT) && unchanged(r)
    ensures Listed(r.branches, branch) && branch != old(r.current) ==>
      var headIds := old(r.commits[r.HeadId()].blobIds);
      var targetIds := r.commits[HeadOf(r.branches, branch)].blobIds;
      if Blocked(old(r.work), old(r.addStage), headIds, targetIds) then
        status == Failed(UNTRACKED_IN_THE_WAY) && unchanged(r)
      else if BlobsStored(r.blobs, targetIds) then
        status == Done && r.current == branch &&
        r.work == Reverted(old(r.work), r.blobs, headIds, targetIds) &&
        !r.addExists && !r.rmExists
      else
        status.Crashed? && r.current == old(r.current)
  {
    var known := HasBranch(r.branches, branch);
    if !known {
      status := Failed(NO_SUCH_BRANCH);
    } else if branch == r.current {
      status := Failed(ALREADY_CURRENT);
    } else {
      status := SwitchTo(r, branch);
    }
  }

  /** The part of checkout [branch] after its guards: revert the working
      tree to the branch's head, then make the branch current. */
  method SwitchTo(r: Repository, branch: string) returns (status: Status)
    requires r.Valid() && Listed(r.branches, branch) && branch != r.current
    modifies r`work, r`addExists, r`addStage, r`rmExists, r`rmStage, r`current
    ensures r.Valid()
    ensures r.branches == old(r.branches) && r.commits == old(r.commits)
    ensures var headIds := old(r.commits[r.HeadId()].blobIds);
      var targetIds := r.commits[HeadOf(r.branches, branch)].blobIds;
      if Blocked(old(r.work), old(r.addStage), headIds, targetIds) then
        status == Failed(UNTRACKED_IN_THE_WAY) && unchanged(r)
      else if BlobsStored(r.blobs, targetIds) then
        status == Done && r.current == branch &&
        r.work == Reverted(old(r.work), r.blobs, headIds, targetIds) &&
        !r.addExists && !r.rmExists
      else
        status.Crashed? && r.current == old(r.current)
  {
    var id := GetBranchHeadId(r.branches, branch);
    assert BranchLine(branch, id) in r.branches;
    status := RevertFileToCommit(r, r.commits[id]);
    if status == Done {
      SwitchBranch(r, branch);
    }
  }

  /** Moving the current-branch file to another registered branch keeps
      the registry and the store consistent. */
  lemma CurrentSwitched(branches: seq<BranchLine>, current: string, commits: map<string, Commit>, branch: string)
    requires GraphConsistent(branches, current, commits) && Listed(branches, branch)
    ensures GraphConsistent(branches, branch, commits)
  {
  }

  /** The last step of checkout [branch]: the current-branch file is
      written with the branch name. */
  method SwitchBranch(r: Repository, branch: string)
    requires r.Valid() && Listed(r.branches, branch) && !r.addExists && !r.rmExists
    modifies r`current
    ensures r.Valid() && r.current == branch
    ensures r.branches == old(r.branches) && r.commits == old(r.commits) && r.blobs == old(r.blobs)
    ensures r.work == old(r.work) && !r.addExists && !r.rmExists
  {
    CurrentSwitched(r.branches, r.current, r.commits, branch);
    r.current := branch;
  }

  /** checkout -- [file]: the current head's version of the file is
      written to the working tree, the stages left alone. */
  method CheckOutFile(r: Repository, separator: string, fileName: string) returns (status: Status)
    requires r.Valid()
    modifies r`work
    ensures separator != SEPARATOR ==> status == Failed(INCORRECT_OPERANDS) && r.work == old(r.work)
    ensures separator == SEPARATOR ==>
      var ids := old(r.commits[r.HeadId()].blobIds);
      (fileName !in Names(ids) ==> status == Failed(NO_SUCH_FILE) && r.work == old(r.work)) &&
      (fileName in Names(ids) && fileName != "" ==> FileCheckedOut(old(r.work), r.work, r.blobs, ids, fileName, status)) &&
      (fileName in Names(ids) && fileName == "" && BlobsStored(r.blobs, ids) ==>
        status == Done && r.work == old(r.work) + Snapshot(r.blobs, ids))
  {
    if separator != SEPARATOR {
      return Failed(INCORRECT_OPERANDS);
    }
    var line, head := ReadHead(r);
    var has := HasFile(fileName, head.blobIds);
    if !has {
      return Failed(NO_SUCH_FILE);
    }
    status := CheckOutFilesOverwrite(r, fileName, head.blobIds);
  }

  /** When a commit holds each file name once, checking out one file
      agrees with checking out the whole commit on that file and touches
      nothing else. */
  lemma CheckedOutFileHoldsVersion(work: map<string, string>, work': map<string, string>,
                                   blobs: map<string, string>, ids: seq<string>, fileName: string)
    requires OneIdPerName(ids)
    requires BlobsStored(blobs, ids)
    requires FileCheckedOut(work, work', blobs, ids, fileName, Done)
    ensures fileName in Snapshot(blobs, ids) && work' == work[fileName := Snapshot(blobs, ids)[fileName]]
  {
    var k :| 0 <= k < |ids| && BlobName(ids[k]) == fileName &&
      (ids[k] in blobs ==> work' == work[fileName := blobs[ids[k]]]);
    assert ids[k] in ids;
  }

  /** checkout [commit id] -- [file]: the version of the file in the commit
      the operand names is written to the working tree, the stages left
      alone. `uid` is the stored commit the operand resolved to. */
  method CheckOutFileAt(r: Repository, arg: string, separator: string, fileName: string)
    returns (status: Status, ghost uid: string)
    requires r.Valid()
    modifies r`work
    ensures separator != SEPARATOR ==> status == Failed(INCORRECT_OPERANDS_AT) && r.work == old(r.work)
    ensures separator == SEPARATOR && !Resolvable(r.commits, arg) ==>
      status == Failed(NO_SUCH_COMMIT) && r.work == old(r.work)
    ensures separator == SEPARATOR && Resolvable(r.commits, arg) ==>
      uid in r.commits && Abbreviates(arg, uid) &&
      var ids := r.commits[uid].blobIds;
      (fileName !in Names(ids) ==> status == Failed(NO_SUCH_FILE) && r.work == old(r.work)) &&
      (fileName in Names(ids) && fileName != "" ==> FileCheckedOut(old(r.work), r.work, r.blobs, ids, fileName, status)) &&
      (fileName in Names(ids) && fileName == "" && BlobsStored(r.blobs, ids) ==>
        status == Done && r.work == old(r.work) + Snapshot(r.blobs, ids))
  {
    uid := "";
    if separator != SEPARATOR {
      return Failed(INCORRECT_OPERANDS_AT), uid;
    }
    var id := LookUpCommit(r.commits, arg);
    if id.None? {
      return Failed(NO_SUCH_COMMIT), uid;
    }
    var key := Truncate(id.value);
    uid := key;
    var ids := r.commits[key].blobIds;
    var has := HasFile(fileName, ids);
    if !has {
      return Failed(NO_SUCH_FILE), uid;
    }
    status := CheckOutFilesOverwrite(r, fileName, ids);
  }

  /** reset [commit id]: the working tree is reverted to the commit the
      operand names, the stages are cleared and the current branch's head
      moves to that commit. `uid` is the stored commit the operand resolved
      to. A blob object that cannot be read stops the command before the
      registry is written. */
  method DoReset(r: Repository, arg: string) returns (status: Status, ghost uid: string)
    requires r.Valid()
    modifies r`work, r`addExists, r`addStage, r`rmExists, r`rmStage, r`branches
    ensures r.Valid()
    ensures r.current == old(r.current) && r.commits == old(r.commits)
    ensures !Resolvable(r.commits, arg) ==> status == Failed(NO_SUCH_COMMIT) && unchanged(r)
    ensures Resolvable(r.commits, arg) ==>
      uid in r.commits && Abbreviates(arg, uid) &&
      var headIds := old(r.commits[r.HeadId()].blobIds);
      var targetIds := r.commits[uid].blobIds;
      if Blocked(old(r.work), old(r.addStage), headIds, targetIds) then
        status == Failed(UNTRACKED_IN_THE_WAY) && unchanged(r)
      else if BlobsStored(r.blobs, targetIds) then
        status == Done &&
        r.branches == WithHead(old(r.branches), r.current, uid) && r.HeadId() == uid &&
        r.work == Reverted(old(r.work), r.blobs, headIds, targetIds) &&
        !r.addExists && !r.rmExists
      else
        status.Crashed? && r.branches == old(r.branches)
  {
    uid := "";
    var id := LookUpCommit(r.commits, arg);
    if id.None? {
      status := Failed(NO_SUCH_COMMIT);
    } else {
      uid := Truncate(id.value);
      status := ResetTo(r, id.value);
    }
  }

  /** The part of reset after the lookup: revert the working tree to the
      commit, then move the current branch's head to it. */
  method ResetTo(r: Repository, id: string) returns (status: Status)
    requires r.Valid() && Truncate(id) in r.commits
    modifies r`work, r`addExists, r`addStage, r`rmExists, r`rmStage, r`branches
    ensures r.Valid()
    ensures r.current == old(r.current) && r.commits == old(r.commits)
    ensures var headIds := old(r.commits[r.HeadId()].blobIds);
      var targetIds := r.commits[Truncate(id)].blobIds;
      if Blocked(old(r.work), old(r.addStage), headIds, targetIds) then
        status == Failed(UNTRACKED_IN_THE_WAY) && unchanged(r)
      else if BlobsStored(r.blobs, targetIds) then
        status == Done &&
        r.branches == WithHead(old(r.branches), r.current, Truncate(id)) && r.HeadId() == Truncate(id) &&
        r.work == Reverted(old(r.work), r.blobs, headIds, targetIds) &&
        !r.addExists && !r.rmExists
      else
        status.Crashed? && r.branches == old(r.branches)
  {
    ghost var headIds := r.commits[r.HeadId()].blobIds;
    var target := r.commits[Truncate(id)];
    status := RevertFileToCommit(r, target);
    if status == Done {
      ResetHead(r, id);
    }
    assert target.blobIds == r.commits[Truncate(id)].blobIds;
  }

  /** The last step of reset: updateHeadOfBranch on the current branch
      with the id of a stored commit. */
  method ResetHead(r: Repository, id: string)
    requires r.Valid() && Truncate(id) in r.commits
    modifies r`branches
    ensures r.Valid()
    ensures r.current == old(r.current) && r.commits == old(r.commits)
    ensures r.branches == WithHead(old(r.branches), r.current, Truncate(id)) && r.HeadId() == Truncate(id)
  {
    HeadMovedConsistent(r.branches, r.current, r.commits, Truncate(id));
    var written := UpdateHeadOfBranch(r.branches, r.current, id);
    r.branches := written;
  }

  /** find [message]: the UIDs of the commits with exactly that message,
      each once, in the unspecified order of the object directory's
      listing; refused when there is none. */
  method DoFind(r: Repository, message: string) returns (status: Status, found: seq<string>)
    ensures Elems(found) == set k | k in r.commits && r.commits[k].message == message
    ensures NoDup(found)
    ensures status == (if found == [] then Failed(NO_SUCH_MESSAGE) else Done)
  {
    found := [];
    var listing := r.commits.Keys;
    while listing != {}
      invariant listing <= r.commits.Keys
      invariant Elems(found) == set k | k in r.commits && k !in listing && r.commits[k].message == message
      invariant NoDup(found)
      decreases |listing|
    {
      var uid :| uid in listing;
      if r.commits[uid].message == message {
        assert uid !in Elems(found);
        assert Elems(found + [uid]) == Elems(found) + {uid};
        found := found + [uid];
      }
      listing := listing - {uid};
    }
    status := if found == [] then Failed(NO_SUCH_MESSAGE) else Done;
  }
}
