/** The persisted state of a repository: the working tree, the object store,
    the branch registry, the current-branch file and the two stage files. */
module Repo {
  import opened Objects
  import opened Files
  import opened Branches
  import opened Tracking

  /** Commit-id derivation, as the model sees it: the hash of a commit
      object, a UID behind a 5-character type prefix. */
  type CommitHash = Commit -> PrefixedUid

  /** A commit's id: a 5-character type prefix and a UID. */
  type PrefixedUid = s: string | |s| == UID_LENGTH + 5
    witness seq(UID_LENGTH + 5, _ => '0')

  /** Every stored commit holds one blob id per file name. */
  ghost predicate OneVersionPerFile(commits: map<string, Commit>) {
    forall k {:trigger OneIdPerName(commits[k].blobIds)} :: k in commits ==> OneIdPerName(commits[k].blobIds)
  }

  /** The current branch is registered, branch names are unique, every
      head and every parent is a stored commit, commits are keyed by bare
      UIDs, and every commit holds one version of each file it tracks. */
  ghost predicate GraphConsistent(branches: seq<BranchLine>, current: string, commits: map<string, Commit>) {
    Listed(branches, current) &&
    UniqueNames(branches) &&
    (forall k :: 0 <= k < |branches| ==> branches[k].id in commits) &&
    (forall k :: k in commits ==> |k| == UID_LENGTH) &&
    ParentsClosed(commits) &&
    OneVersionPerFile(commits)
  }

  /** A registry holding only `master`, at a parentless root commit stored
      under its UID, is consistent. */
  lemma InitialGraph(uid: string, root: Commit)
    requires |uid| == UID_LENGTH
    requires root.parent1.None? && root.parent2.None? && root.blobIds == []
    ensures GraphConsistent([BranchLine("master", uid)], "master", map[uid := root])
  {
    assert [BranchLine("master", uid)][0].name == "master";
  }

  /** The persisted state of a repository as a value. */
  datatype PersistedState = PersistedState(
    work: map<string, string>, blobs: map<string, string>, commits: map<string, Commit>,
    branches: seq<BranchLine>, current: string,
    addExists: bool, addStage: seq<string>, rmExists: bool, rmStage: seq<string>)

  class Repository {
    /** SHA-1 over file contents. */
    const sha1: Hash
    /** The id a new commit object receives. */
    const commitId: CommitHash

    /** The working tree: file name to content. */
    var work: map<string, string>
    /** Blob objects: blob id to the content it stores. */
    var blobs: map<string, string>
    /** Commit objects, keyed by UID (without the type prefix). */
    var commits: map<string, Commit>
    /** The registry file, one line per branch, in file order. */
    var branches: seq<BranchLine>
    /** The current-branch file. */
    var current: string
    /** The add-stage file: whether it exists and its lines (blob ids). */
    var addExists: bool
    var addStage: seq<string>
    /** The remove-stage file: whether it exists and its lines (file names). */
    var rmExists: bool
    var rmStage: seq<string>

    /** What every command keeps: the registry and the object store are
        consistent, and the stage files are consistent. */
    ghost predicate Valid()
      reads `branches, `current, `commits, `addExists, `addStage, `rmExists, `rmStage
    {
      GraphValid() && StagesValid()
    }

    /** The registry and the commit store are consistent. */
    ghost predicate GraphValid()
      reads `branches, `current, `commits
    {
      GraphConsistent(branches, current, commits)
    }

    /** A stage file that does not exist has no lines. */
    predicate StagesValid()
      reads `addExists, `addStage, `rmExists, `rmStage
    {
      (!addExists ==> addStage == []) &&
      (!rmExists ==> rmStage == [])
    }

    /** The UID of the current branch's head. */
    function HeadId(): (id: string)
      reads `branches, `current, `commits
      requires GraphValid()
      ensures id in commits
    {
      assert BranchLine(current, HeadOf(branches, current)) in branches;
      HeadOf(branches, current)
    }

    /** Everything the repository persists, as one value. */
    function State(): PersistedState
      reads this
    {
      PersistedState(work, blobs, commits, branches, current, addExists, addStage, rmExists, rmStage)
    }

    /** doInit: a repository whose only commit is the root commit, whose
        only branch is `master` pointing at it, with no stage files. */
    constructor Init(sha1: Hash, commitId: CommitHash, work: map<string, string>, root: Commit)
      requires root.parent1.None? && root.parent2.None? && root.blobIds == []
      ensures Valid()
      ensures this.sha1 == sha1 && this.commitId == commitId
      ensures this.work == work && blobs == map[]
      ensures commits == map[commitId(root)[5..] := root]
      ensures branches == [BranchLine("master", commitId(root)[5..])]
      ensures current == "master"
      ensures !addExists && !rmExists
    {
      this.sha1 := sha1;
      this.commitId := commitId;
      this.work := work;
      blobs := map[];
      var full := commitId(root);
      assert |full| == UID_LENGTH + 5;
      var uid := full[5..];
      commits := map[uid := root];
      branches := [BranchLine("master", uid)];
      current := "master";
      addExists := false;
      addStage := [];
      rmExists := false;
      rmStage := [];
      new;
      InitialGraph(uid, root);
    }
  }

  /** updateHeadOfBranch on the registry file: the file is rewritten with
      the branch's head set to the id, cut to its UID. */
  method MoveHead(r: Repository, branch: string, id: string)
    modifies r`branches
    ensures r.branches == WithHead(old(r.branches), branch, Truncate(id))
    ensures old(r.GraphValid()) && Truncate(id) in r.commits ==> r.GraphValid()
  {
    var written := UpdateHeadOfBranch(r.branches, branch, id);
    if r.GraphValid() && Truncate(id) in r.commits {
      WithHeadNames(r.branches, branch, Truncate(id));
    }
    r.branches := written;
  }

  /** Whether every parent of a commit resolves to a stored commit. */
  predicate ParentsStored(commits: map<string, Commit>, c: Commit) {
    (c.parent1.Some? ==> Truncate(c.parent1.value) in commits) &&
    (c.parent2.Some? ==> Truncate(c.parent2.value) in commits)
  }

  /** Storing a commit whose parents are stored and which holds one id per
      file name, under a UID, keeps the registry and the store consistent. */
  lemma StoreKeepsGraph(branches: seq<BranchLine>, current: string, commits: map<string, Commit>,
                        uid: string, c: Commit)
    requires GraphConsistent(branches, current, commits)
    requires |uid| == UID_LENGTH && ParentsStored(commits, c) && OneIdPerName(c.blobIds)
    ensures GraphConsistent(branches, current, commits[uid := c])
  {
  }

  /** Moving the current branch's head to a stored commit keeps the
      registry and the store consistent, and makes that commit the head. */
  lemma HeadMovedConsistent(branches: seq<BranchLine>, current: string, commits: map<string, Commit>, uid: string)
    requires GraphConsistent(branches, current, commits) && uid in commits
    ensures GraphConsistent(WithHead(branches, current, uid), current, commits)
    ensures HeadOf(WithHead(branches, current, uid), current) == uid
  {
    HeadMoved(branches, current, uid);
    WithHeadNames(branches, current, uid);
  }

  /** `new Commit(...)`: the commit object is written to the store under
      the UID of its id; the full id, type prefix included, is returned. */
  method WriteCommit(r: Repository, c: Commit) returns (id: string)
    requires r.GraphValid() && ParentsStored(r.commits, c) && OneIdPerName(c.blobIds)
    modifies r`commits
    ensures id == r.commitId(c) && Truncate(id) == id[5..]
    ensures r.commits == old(r.commits)[Truncate(id) := c]
    ensures r.GraphValid()
  {
    id := r.commitId(c);
    var uid := id[5..];
    StoreKeepsGraph(r.branches, r.current, r.commits, uid, c);
    r.commits := r.commits[uid := c];
  }

  /** getCommit(getCurrentBranchAndHeadID()[1]): the current branch's line
      of the registry and its head commit. */
  method ReadHead(r: Repository) returns (line: BranchLine, head: Commit)
    requires r.GraphValid()
    ensures line == BranchLine(r.current, r.HeadId()) && head == r.commits[r.HeadId()]
  {
    var found := GetCurrentBranchAndHeadId(r.branches, r.current);
    line := found.value;
    head := r.commits[line.id];
  }

  /** A new commit on the current branch: the commit object is stored and
      the current branch's head moves to its UID. */
  method CommitOnCurrent(r: Repository, c: Commit) returns (uid: string)
    requires r.GraphValid() && ParentsStored(r.commits, c) && OneIdPerName(c.blobIds)
    modifies r`commits, r`branches
    ensures uid == r.commitId(c)[5..]
    ensures r.commits == old(r.commits)[uid := c]
    ensures r.branches == WithHead(old(r.branches), r.current, uid)
    ensures r.GraphValid() && r.HeadId() == uid
  {
    var id := WriteCommit(r, c);
    uid := Truncate(id);
    HeadMoved(r.branches, r.current, uid);
    MoveHead(r, r.current, id);
  }

  /** Both stage files are deleted (those that exist). */
  method ClearStages(r: Repository)
    requires r.GraphValid()
    modifies r`addExists, r`addStage, r`rmExists, r`rmStage
    ensures !r.addExists && r.addStage == [] && !r.rmExists && r.rmStage == []
    ensures r.branches == old(r.branches) && r.current == old(r.current) && r.commits == old(r.commits)
    ensures r.GraphValid() && r.HeadId() == old(r.HeadId())
  {
    r.addExists, r.addStage := false, [];
    r.rmExists, r.rmStage := false, [];
  }
}
