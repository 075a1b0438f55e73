/** The merge command: its guards, the untracked-file check against the
    given head, the split-point search, the three-way merge of the three
    commits' files, and the merge commit with two parents. */
module MergeCommand {
  import opened Objects
  import opened Files
  import opened Branches
  import opened Tracking
  import opened Repo
  import opened Checkout
  import opened SplitPoint
  import opened MergeEngine

  const UNCOMMITTED: string := "You have uncommitted changes."
  const NO_SUCH_BRANCH: string := "A branch with that name does not exist."
  const MERGE_ITSELF: string := "Cannot merge a branch with itself."

  /** The log message of a merge commit. */
  function MergeMessage(given: string, current: string): string {
    "Merged " + given + " into " + current + "."
  }

  /** The name-to-id maps of the current head, the split point and the
      given head. */
  function SidesOf(commits: map<string, Commit>, cId: string, sId: string, bId: string): Sides
    requires cId in commits && sId in commits && bId in commits
  {
    Sides(NameMap(commits[cId].blobIds), NameMap(commits[sId].blobIds), NameMap(commits[bId].blobIds))
  }

  /** What the three-way merge leaves, from the working tree `work0` and the
      add stage `add0` it started with: the working tree `work`, the lines of
      the add stage `staged`, and whether a conflict was met. */
  ghost predicate Merged(sha1: Hash, blobs: map<string, string>, h: Sides,
                         work0: map<string, string>, add0: seq<string>,
                         work: map<string, string>, staged: seq<string>, conflict: bool)
  {
    var after := Closed(sha1, blobs, h, MergeState(NameMap(add0), work0, {}, false, {}, false), AllNames(h));
    work == after.work && conflict == after.conflict &&
    Elems(staged) == (after.staged - after.toBeRm).Values
  }

  /** The merge commit `c` of a completed merge: the message names both
      branches, the parents are the current head and the given head, and
      the blobs are the add stage the three-way merge leaves, from the
      working tree `work0` and add stage `add0` it started with; `work` is
      the merged working tree. */
  ghost predicate MergeCommitted(c: Commit, conflict: bool, sha1: Hash, blobs: map<string, string>, h: Sides,
                                 work0: map<string, string>, add0: seq<string>, work: map<string, string>,
                                 given: string, current: string, headId: string, givenHead: string, timestamp: string)
  {
    c.message == MergeMessage(given, current) && c.timestamp == timestamp &&
    c.parent1 == Some(headId) && c.parent2 == Some(givenHead) &&
    Merged(sha1, blobs, h, work0, add0, work, c.blobIds, conflict)
  }

  /** The guards of merge, in the order the command checks them: an add
      stage with lines is an uncommitted change; a remove stage without an
      add-stage file makes the command read a missing file; an unknown given
      branch; the current branch itself. */
  method CheckMergeable(addExists: bool, addStage: seq<string>, rmExists: bool,
                        branches: seq<BranchLine>, current: string, given: string)
    returns (refusal: Option<Status>)
    requires forall k :: 0 <= k < |branches| ==> branches[k].id != ""
    ensures addExists && addStage != [] ==> refusal == Some(Failed(UNCOMMITTED))
    ensures !addExists && rmExists ==> refusal.Some? && refusal.value.Crashed?
    ensures !(addExists && addStage != []) && !(!addExists && rmExists) ==>
      (!Listed(branches, given) ==> refusal == Some(Failed(NO_SUCH_BRANCH))) &&
      (Listed(branches, given) && given == current ==> refusal == Some(Failed(MERGE_ITSELF))) &&
      (Listed(branches, given) && given != current ==> refusal.None?)
  {
    var givenHead := GetBranchHeadId(branches, given);
    if addExists && addStage != [] {
      return Some(Failed(UNCOMMITTED));
    }
    if rmExists && !addExists {
      return Some(Crashed("the add-stage file is missing"));
    }
    if givenHead == "" {
      return Some(Failed(NO_SUCH_BRANCH));
    }
    if given == current {
      return Some(Failed(MERGE_ITSELF));
    }
    return None;
  }

  /** The end of merge: a commit with the current head and the given head
      as parents, holding the add stage's lines, is stored, the current
      branch's head moves to it, and both stage files are deleted. */
  method MergeCommit(r: Repository, given: string, givenHead: string, timestamp: string) returns (made: Commit)
    requires r.Valid() && givenHead in r.commits && OneIdPerName(r.addStage)
    modifies r`commits, r`branches, r`addExists, r`addStage, r`rmExists, r`rmStage
    ensures r.Valid()
    ensures r.current == old(r.current)
    ensures made == Commit(MergeMessage(given, r.current), timestamp, Some(old(r.HeadId())), Some(givenHead), old(r.addStage))
    ensures var uid := r.commitId(made)[5..];
      r.commits == old(r.commits)[uid := made] &&
      r.branches == WithHead(old(r.branches), r.current, uid) && r.HeadId() == uid
    ensures !r.addExists && !r.rmExists
  {
    var line, head := ReadHead(r);
    made := Commit(MergeMessage(given, line.name), timestamp, Some(line.id), Some(givenHead), r.addStage);
    var uid := CommitOnCurrent(r, made);
    ClearStages(r);
  }

  /** The three-way merge of the three commits' files, then the merge
      commit. A blob object that cannot be read stops the merge before the
      commit is made. */
  method MergeInto(r: Repository, h: Sides, given: string, givenHead: string, timestamp: string)
    returns (status: Status, conflict: bool, made: Option<Commit>)
    requires r.Valid() && givenHead in r.commits && SidesCarryKeys(h)
    modifies r`work, r`commits, r`branches, r`addExists, r`addStage, r`rmExists, r`rmStage
    ensures r.Valid()
    ensures r.current == old(r.current)
    ensures status == Done <==> Readable(r.blobs, h)
    ensures status != Done ==>
      status.Crashed? && made.None? && r.commits == old(r.commits) && r.branches == old(r.branches)
    ensures status == Done ==>
      made.Some? &&
      MergeCommitted(made.value, conflict, r.sha1, r.blobs, h, old(r.work), old(r.addStage), r.work,
                     given, r.current, old(r.HeadId()), givenHead, timestamp) &&
      var uid := r.commitId(made.value)[5..];
      r.commits == old(r.commits)[uid := made.value] &&
      r.branches == WithHead(old(r.branches), r.current, uid) && r.HeadId() == uid &&
      !r.addExists && !r.rmExists
  {
    made := None;
    ghost var start := MergeState(NameMap(r.addStage), r.work, Elems(r.rmStage), r.rmExists, {}, false);
    status, conflict := Merge(r, h);
    if status != Done {
      return;
    }
    MergedStageDistinct(r.sha1, r.blobs, h, start, r.addStage);
    var c := MergeCommit(r, given, givenHead, timestamp);
    made := Some(c);
  }

  /** In a consistent store, the version merge writes for a name the given
      head tracks (the entry of the head's name map) is the version
      checkOutFilesOverwrite writes for that name: the first id carrying
      it. */
  lemma GivenWriteIsCheckout(commits: map<string, Commit>, bId: string, work: map<string, string>,
                             blobs: map<string, string>, n: string)
    requires OneVersionPerFile(commits) && bId in commits
    requires n in NameMap(commits[bId].blobIds) && NameMap(commits[bId].blobIds)[n] in blobs
    ensures var ids := commits[bId].blobIds;
      FileCheckedOut(work, work[n := blobs[NameMap(ids)[n]]], blobs, ids, n, Done)
  {
    var ids := commits[bId].blobIds;
    var id := NameMap(ids)[n];
    assert BlobName(id) == n && id in ids;
    var m :| 0 <= m < |ids| && ids[m] == id;
    var k := 0;
    while BlobName(ids[k]) != n
      invariant 0 <= k <= m
      invariant forall j :: 0 <= j < k ==> BlobName(ids[j]) != n
      decreases m - k
    {
      k := k + 1;
    }
    assert OneIdPerName(ids) && ids[k] in ids;
    assert ids[k] == id;
  }

  /** A fast-forward: the given head's blobs are stored and the working
      tree is reverted from the current head's files `headIds` to the given
      head's files `givenIds`. */
  ghost predicate FastForwarded(work0: map<string, string>, blobs: map<string, string>,
                                headIds: seq<string>, givenIds: seq<string>, work: map<string, string>)
  {
    BlobsStored(blobs, givenIds) && work == Reverted(work0, blobs, headIds, givenIds)
  }

  /** How the split-point search settles a merge of the head `bId` into the
      head `cId`, once the untracked-file check has passed: identical heads
      are refused; otherwise the walk decides. The given head found is an
      ancestor; the current head found is a fast-forward, which crashes on
      an unstored given blob; nothing found is a crash; any other commit
      found is the split point the merge uses, and the merge completes
      exactly when every blob of the three sides can be read. */
  ghost predicate SplitDecided(commits0: map<string, Commit>, blobs: map<string, string>,
                               cId: string, bId: string, status: Status, split: string)
  {
    cId in commits0 && bId in commits0 && ParentsClosed(commits0) &&
    (cId == bId <==> status == Failed(SAME_COMMIT)) &&
    var found := FoundSplit(commits0, cId, bId);
    (cId != bId ==>
      (found == Some(bId) <==> status == Failed(GIVEN_IS_ANCESTOR)) &&
      (found == Some(cId) ==>
        (status == Failed(FAST_FORWARDED) <==> BlobsStored(blobs, commits0[bId].blobIds)) &&
        (status != Failed(FAST_FORWARDED) ==> status.Crashed?)) &&
      (found.None? ==> status.Crashed?) &&
      (found.Some? && found.value != cId && found.value != bId ==>
        split == found.value &&
        (status == Done <==> Readable(blobs, SidesOf(commits0, cId, split, bId))) &&
        (status != Done ==> status.Crashed?)))
  }

  /** A completed merge of branch `given` into `current`, from the store
      `commits0` and registry `branches0`: the split point is an ancestor of
      one of the two heads, distinct from both, the merge commit `made` is
      as MergeCommitted says for the three sides, it is stored under its
      UID, and the current branch's head moves to it. */
  ghost predicate MergeDone(commits0: map<string, Commit>, branches0: seq<BranchLine>, current: string,
                            given: string, split: string, made: Option<Commit>, conflict: bool,
                            sha1: Hash, blobs: map<string, string>, work0: map<string, string>,
                            add0: seq<string>, work: map<string, string>, commitId: CommitHash,
                            timestamp: string, commits: map<string, Commit>, branches: seq<BranchLine>)
  {
    var cId := HeadOf(branches0, current);
    var bId := HeadOf(branches0, given);
    cId in commits0 && bId in commits0 && split in commits0 && split != cId && split != bId &&
    Discovered(commits0, cId, bId, split) &&
    made.Some? &&
    MergeCommitted(made.value, conflict, sha1, blobs, SidesOf(commits0, cId, split, bId),
                   work0, add0, work, given, current, cId, bId, timestamp) &&
    var uid := commitId(made.value)[5..];
    commits == commits0[uid := made.value] && branches == WithHead(branches0, current, uid)
  }

  /** merge after its guards and the untracked-file check: the
      split-point search, which may end the command (identical heads, the
      given head an ancestor, or a fast-forward); otherwise the three-way
      merge of the current head, the split point and the given head, and
      the merge commit. `split` is the split point the search found. */
  method SplitThenMerge(r: Repository, given: string, timestamp: string)
    returns (status: Status, conflict: bool, made: Option<Commit>, ghost split: string)
    requires r.Valid() && Listed(r.branches, given) && given != r.current
    requires !Blocked(r.work, r.addStage, r.commits[r.HeadId()].blobIds, r.commits[HeadOf(r.branches, given)].blobIds)
    modifies r`work, r`commits, r`branches, r`addExists, r`addStage, r`rmExists, r`rmStage
    ensures r.Valid() && r.current == old(r.current)
    ensures status != Done ==> made.None?
    ensures status.Failed? ==> status.message in {SAME_COMMIT, GIVEN_IS_ANCESTOR, FAST_FORWARDED}
    ensures SplitDecided(old(r.commits), r.blobs, old(r.HeadId()), HeadOf(old(r.branches), given), status, split)
    ensures status == Failed(SAME_COMMIT) || status == Failed(GIVEN_IS_ANCESTOR) ==> unchanged(r)
    ensures status == Failed(FAST_FORWARDED) ==>
      r.branches == old(r.branches) && r.commits == old(r.commits) &&
      FastForwarded(old(r.work), r.blobs, old(r.commits[r.HeadId()].blobIds),
                    old(r.commits[HeadOf(r.branches, given)].blobIds), r.work) &&
      !r.addExists && !r.rmExists
    ensures status == Done ==>
      MergeDone(old(r.commits), old(r.branches), r.current, given, split, made, conflict, r.sha1, r.blobs,
                old(r.work), old(r.addStage), r.work, r.commitId, timestamp, r.commits, r.branches) &&
      !r.addExists && !r.rmExists
  {
    conflict, made, split := false, None, "";
    var line, head := ReadHead(r);
    var bHead := GetBranchHeadId(r.branches, given);
    assert BranchLine(given, bHead) in r.branches;
    var found;
    status, found := GetSplitPoint(r, line.id, bHead, bHead, given);
    if status == Done {
      split := found.value;
      var h := SidesOf(r.commits, line.id, found.value, bHead);
      status, conflict, made := MergeInto(r, h, given, bHead, timestamp);
    }
  }

  /** merge after its guards: refused, with nothing changed, when a file
      of the working tree that is neither tracked by the current head nor
      staged would be overwritten by the given head; otherwise as
      SplitThenMerge. */
  method MergeBranch(r: Repository, given: string, timestamp: string)
    returns (status: Status, conflict: bool, made: Option<Commit>, ghost split: string)
    requires r.Valid() && Listed(r.branches, given) && given != r.current
    modifies r`work, r`commits, r`branches, r`addExists, r`addStage, r`rmExists, r`rmStage
    ensures r.Valid() && r.current == old(r.current)
    ensures status != Done ==> made.None?
    ensures Blocked(old(r.work), old(r.addStage), old(r.commits[r.HeadId()].blobIds),
                    old(r.commits[HeadOf(r.branches, given)].blobIds)) <==>
      status == Failed(UNTRACKED_IN_THE_WAY)
    ensures status.Failed? ==> status.message in {UNTRACKED_IN_THE_WAY, SAME_COMMIT, GIVEN_IS_ANCESTOR, FAST_FORWARDED}
    ensures status == Failed(UNTRACKED_IN_THE_WAY) ==> unchanged(r)
    ensures status != Failed(UNTRACKED_IN_THE_WAY) ==>
      SplitDecided(old(r.commits), r.blobs, old(r.HeadId()), HeadOf(old(r.branches), given), status, split)
    ensures status == Failed(SAME_COMMIT) || status == Failed(GIVEN_IS_ANCESTOR) ==> unchanged(r)
    ensures status == Failed(FAST_FORWARDED) ==>
      r.branches == old(r.branches) && r.commits == old(r.commits) &&
      FastForwarded(old(r.work), r.blobs, old(r.commits[r.HeadId()].blobIds),
                    old(r.commits[HeadOf(r.branches, given)].blobIds), r.work) &&
      !r.addExists && !r.rmExists
    ensures status == Done ==>
      MergeDone(old(r.commits), old(r.branches), r.current, given, split, made, conflict, r.sha1, r.blobs,
                old(r.work), old(r.addStage), r.work, r.commitId, timestamp, r.commits, r.branches) &&
      !r.addExists && !r.rmExists
  {
    conflict, made, split := false, None, "";
    var line, head := ReadHead(r);
    var bHead := GetBranchHeadId(r.branches, given);
    assert BranchLine(given, bHead) in r.branches;
    var branchMap := GetBlobsNameMapId(r.commits[bHead].blobIds);
    var blocked := HasUntrackedFiles(r.work, r.addStage, head.blobIds, Some(branchMap));
    if blocked {
      status := Failed(UNTRACKED_IN_THE_WAY);
    } else {
      status, conflict, made, split := SplitThenMerge(r, given, timestamp);
    }
  }

  /** Whether the stage files let merge go on: the add stage holds no line,
      and the remove stage does not exist without the add stage. */
  predicate StagesClean(addExists: bool, addStage: seq<string>, rmExists: bool) {
    !(addExists && addStage != []) && !(!addExists && rmExists)
  }

  /** merge [branch]: the guards of CheckMergeable, each leaving the
      repository as it was; then as MergeBranch. */
  method DoMerge(r: Repository, given: string, timestamp: string)
    returns (status: Status, conflict: bool, made: Option<Commit>, ghost split: string)
    requires r.Valid()
    modifies r`work, r`commits, r`branches, r`addExists, r`addStage, r`rmExists, r`rmStage
    ensures r.Valid() && r.current == old(r.current)
    ensures status != Done ==> made.None?
    ensures old(r.addExists) && old(r.addStage) != [] ==> status == Failed(UNCOMMITTED) && unchanged(r)
    ensures !old(r.addExists) && old(r.rmExists) ==> status.Crashed? && unchanged(r)
    ensures StagesClean(old(r.addExists), old(r.addStage), old(r.rmExists)) && !Listed(old(r.branches), given) ==>
      status == Failed(NO_SUCH_BRANCH) && unchanged(r)
    ensures StagesClean(old(r.addExists), old(r.addStage), old(r.rmExists)) && given == r.current ==>
      status == Failed(MERGE_ITSELF) && unchanged(r)
    ensures StagesClean(old(r.addExists), old(r.addStage), old(r.rmExists)) &&
            Listed(old(r.branches), given) && given != r.current ==>
      (Blocked(old(r.work), old(r.addStage), old(r.commits[r.HeadId()].blobIds),
               old(r.commits[HeadOf(r.branches, given)].blobIds)) <==>
       status == Failed(UNTRACKED_IN_THE_WAY)) &&
      (status != Failed(UNTRACKED_IN_THE_WAY) ==>
       SplitDecided(old(r.commits), r.blobs, old(r.HeadId()), HeadOf(old(r.branches), given), status, split))
    ensures status in {Failed(UNTRACKED_IN_THE_WAY), Failed(SAME_COMMIT), Failed(GIVEN_IS_ANCESTOR)} ==> unchanged(r)
    ensures status == Failed(FAST_FORWARDED) ==>
      Listed(old(r.branches), given) &&
      r.branches == old(r.branches) && r.commits == old(r.commits) &&
      FastForwarded(old(r.work), r.blobs, old(r.commits[r.HeadId()].blobIds),
                    old(r.commits[HeadOf(r.branches, given)].blobIds), r.work) &&
      !r.addExists && !r.rmExists
    ensures status == Done ==>
      MergeDone(old(r.commits), old(r.branches), r.current, given, split, made, conflict, r.sha1, r.blobs,
                old(r.work), old(r.addStage), r.work, r.commitId, timestamp, r.commits, r.branches) &&
      !r.addExists && !r.rmExists
  {
    conflict, made, split := false, None, "";
    var refusal := CheckMergeable(r.addExists, r.addStage, r.rmExists, r.branches, r.current, given);
    if refusal.Some? {
      status := refusal.value;
    } else {
      status, conflict, made, split := MergeBranch(r, given, timestamp);
    }
  }
}
